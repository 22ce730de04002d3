# System headers: the parts that compute

The headers under `sysincludes/` are mostly declarations. Four of them hold
logic of their own, as macros, inline functions or preprocessor programs. This
project models those four and proves what their users rely on.

* **Obstacks** (`obstack.h`). An obstack carves objects out of large chunks; the
  object on top grows, finished ones never move, and freeing one unwinds to it.
  `ObstackSpec` gives each macro as a function on a snapshot of the control block
  and its chunks. `ObstackRefinement` couples a snapshot with a plain stack of
  byte strings through an exact layout invariant: every object sits in its home
  chunk immediately after its predecessor there. `ObstackRuns` lifts this to
  every run and `ObstackProperties` draws the consequences. `ObstackMacros` is the
  imperative code over one flat memory, once as written for GNU C and once as
  written for other compilers. `ObstackBuilds` runs the two side by side, and each
  of them against the stack of byte strings, from the first chunk on; what each
  call means to its user is stated there call by call (`Means`), apart from the
  operations it is made of.
* **Feature-test macros** (`features.h`). `Features` has the header's sequence of
  conditional definitions as methods on mutable records, a closed form of what they compute, and
  theorems about the closed form for every environment. `FeatureTable` holds the
  closed form against the table in the header's opening comment, macro by macro
  and edition by edition. A macro may be
  undefined, defined as nothing, or any integer; the places where an empty
  definition is a syntax error are modelled as failure.
* **Cleanup blocks** (`pthread.h`). `Cleanup` states the cleanup stack of section
  2.9.5.3 of the System Interfaces volume of IEEE Std 1003.1-2008 as a machine on
  flat code, and proves what it does to nested blocks. A pending cancellation
  strikes at a cancellation point, and anywhere under an asynchronous type, also
  in the middle of a pop that has just restored that type. `CancellationPoints`
  reads off a program's text where it can be stopped, and proves that every run is
  the undisturbed one cut at the first such place. `CleanupExpansions` has
  the three expansions of the macros, proves each equal to the machine with the
  order of its own restoring pop, and says exactly where they part.
* **Argz vectors** (`argz.h`). `Argz` has `argz_next` and the two documented loops.

Addresses, lengths and preprocessor integers are unbounded. The chunk allocator
is a parameter: an operation that may overflow carries the chunk the allocator
would answer with, which has to be fresh and large enough, at any address,
adjacent to other chunks or not. `_obstack_newchunk` and `__obstack_free` are only
declared in the header (184, 197); their bodies here follow its comments: copy
the partial object to the start of the new chunk (78-81), give the old chunk
back unless it may hold another object, even an empty one (173-176), unwind to
an earlier state (96-98). Neither touches `temp`, which the macros for other
compilers read after the call.

Where code and documentation disagree, the model follows the code:

* `_REENTRANT` is documented as equivalent to `_POSIX_C_SOURCE=199506L`
  (`features.h:57-58`). `NotASynonym` has the input where it is not,
  `SynonymExactly` the exact condition.
* The second argz loop is documented as an alternative to the first
  (`argz.h:114-124`). On an empty vector at a non-null address it visits an entry
  that is not there; `LoopsAgreeExactly` has the exact condition.
* All three expansions of the restoring pop carry the same description
  (`pthread.h:595-597`, `648-650`, `719-721`), and the first two restore the
  cancellation type before they disarm the handler, the third after. If restoring
  lets a pending cancellation strike, the first two run the block's handler even
  for `execute == 0` and the third does not even for `execute != 0`: `OrdersDiffer`.
  `OrdersAgreeExactly` and `AgreeForEveryRequest` have the exact conditions, for one
  request and for all of them.
* Feature selections "accumulate" (`features.h:65`). They do not where a feature
  came from an implicit choice; `MonotoneExactly` says which environments those are.

## Model

| member | source | states |
|---|---|---|
| Alignment.AndNotRoundsDown | sysincludes/obstack.h:119-123 | masking with the complement of A rounds down to a multiple of A + 1, for every power of two A + 1 and every value |
| Alignment.BptrAlignIsLeast | sysincludes/obstack.h:119-123 | the mask expression yields the least address at or above P congruent to B modulo A + 1 |
| Alignment.PtrAlignIsLeast | sysincludes/obstack.h:125-134 | under either strategy aligning yields the least address at or above P congruent to the base it goes by, less than one unit above P |
| Alignment.StrategiesAgree | sysincludes/obstack.h:125-134 | aligning relative to an aligned base and relative to zero give the same address |
| ObstackSpec.StartAligned | sysincludes/obstack.h:291-294 | the first object position of a chunk is aligned under either strategy |
| ObstackSpec.StartIsLeast | sysincludes/obstack.h:291-294 | the first object of a chunk goes to the least aligned address behind the header, under either strategy |
| ObstackSpec.NewChunkKeepsShape | sysincludes/obstack.h:78-81 | an overflow leaves a well-formed obstack with room for the request and the same partial object at the start of the new chunk |
| ObstackSpec.MakeRoomKeepsShape | sysincludes/obstack.h:280-286 | after make_room the requested length fits and the growing object is unchanged |
| ObstackSpec.NewChunkOnlyIfNeeded | sysincludes/obstack.h:284-285 | a request that fits leaves the obstack as it is, also if it fits exactly; any other moves to the chunk the allocator hands out |
| ObstackSpec.ObjectStaysIfItFits | sysincludes/obstack.h:66-73 | an object that still fits after grow, grow0 or blank keeps its address, and no other chunk changes |
| ObstackSpec.AppendKeepsShape | sysincludes/obstack.h:254-256 | storing at next_free appends exactly those bytes to the growing object |
| ObstackSpec.FinishKeepsShape | sysincludes/obstack.h:394-400 | finish leaves a well-formed obstack with an empty growing object |
| ObstackSpec.FinishIsLeast | sysincludes/obstack.h:394-400 | finish advances to the least address not below the object that is congruent to the base the strategy goes by, or to the chunk limit if that lies beyond |
| ObstackSpec.UnwindStops | sysincludes/obstack.h:96-98 | unwinding gives back exactly the chunks newer than the newest one that owns the address |
| ObstackRefinement.AppendLocated | sysincludes/obstack.h:296-323 | appending disturbs no finished object and keeps the layout invariant |
| ObstackRefinement.NewChunkLocated | sysincludes/obstack.h:78-81 | an overflow, dropping the old chunk or not, keeps every finished object in place |
| ObstackRefinement.DropIsSafe | sysincludes/obstack.h:173-176 | when the old chunk is given back, no live object has it as its home |
| ObstackRefinement.BlankFastLocated | sysincludes/obstack.h:256-256 | blank extends the object by whatever memory holds, or shrinks it, and keeps the layout invariant |
| ObstackRefinement.EndOfObject | sysincludes/obstack.h:394-400 | finish ends the object at the aligned address or the chunk limit, the same under both alignment strategies, also at an unaligned limit |
| ObstackRefinement.FinishLocated | sysincludes/obstack.h:388-401 | finish pushes the growing bytes as an object at the old base and keeps the layout invariant and the meaning of maybe_empty_object |
| ObstackRefinement.OwnerIsUnique | sysincludes/obstack.h:403-409 | no address an object can have belongs to two chunks, adjacent ones included |
| ObstackRefinement.FreeChunks | sysincludes/obstack.h:403-409 | free by address, on either path, keeps exactly the chunks up to the home of the named object; the fast path implies the current chunk |
| ObstackRefinement.FreeLocated | sysincludes/obstack.h:96-98 | free by the address of any live object, or of the growing one, pops it and everything above it |
| ObstackRuns.StepRefines | sysincludes/obstack.h:280-409 | every permitted call does to the represented stack of byte strings what the specification says: grow appends, finish pushes, free pops |
| ObstackRuns.RunRefines | sysincludes/obstack.h:280-409 | the same over every run with any number of overflows |
| ObstackRuns.ReachableRefines | sysincludes/obstack.h:27-32 | every run from a fresh obstack represents the stack the specification arrives at |
| ObstackProperties.ObjectsAreDisjoint | sysincludes/obstack.h:71-76 | live objects are stored intact and overlap neither each other nor the room of the growing object |
| ObstackProperties.StackOrderIsAddressOrder | sysincludes/obstack.h:62-69 | within a chunk, an older object ends at or below the start of a newer one |
| ObstackProperties.ObjectsAreAligned | sysincludes/obstack.h:223-225 | every non-empty object, finished or growing, is aligned; an unaligned base leaves no room, so any byte forces a new chunk |
| ObstackProperties.FinishCutsOnlyPadding | sysincludes/obstack.h:394-400 | finish advances to the least aligned address not below the object, or to the chunk limit if that lies beyond: it never cuts data, pads by less than one unit, and the alignment strategy makes no difference to the resulting state |
| ObstackProperties.FinishedObjectsStay | sysincludes/obstack.h:71-76 | over every run, an object that is not freed keeps its address and its bytes |
| ObstackProperties.ChunkDroppedOnlyIfUnused | sysincludes/obstack.h:173-176 | the replaced chunk is given back only if no live object, even an empty one, lies in it, and exactly then while maybe_empty_object is clear |
| ObstackProperties.DropsExactlyWithoutFree | sysincludes/obstack.h:173-176 | over every run without a free, maybe_empty_object is set only if the current chunk holds an empty object, so an overflow gives the old chunk back exactly if nothing lies in it |
| ObstackProperties.DropsExactlyFromBegin | sysincludes/obstack.h:173-176 | a begun obstack starts with maybe_empty_object clear, so in every run from it without a free an overflow gives the old chunk back exactly if no object, not even an empty one, lies in it |
| ObstackProperties.OverflowKeepsOrDrops | sysincludes/obstack.h:173-176 | after an overflow the chain is the old one with the new chunk at its end, in place of the old current chunk exactly if nothing lay in that |
| ObstackProperties.EmptyObjectPinsChunk | sysincludes/obstack.h:173-176 | the flag is conservative: finishing and freeing an empty object keeps an unused chunk from being given back |
| ObstackProperties.FastPathExactly | sysincludes/obstack.h:407-408 | the fast path of free is taken exactly for the objects, finished or growing, whose home is the current chunk and that do not sit at its limit |
| ObstackProperties.FreeRemovesExactly | sysincludes/obstack.h:403-409 | free makes the owner of the object the current chunk and removes exactly what lies in newer chunks or at or above it in its own |
| ObstackProperties.FastStepsAreGrow | sysincludes/obstack.h:254-254 | n unchecked single-byte steps leave exactly the state one grow of n bytes leaves |
| ObstackProperties.RoomThenFastRefinesChecked | sysincludes/obstack.h:280-286 | after make_room (n), n unchecked steps stay inside the chunk and build the object n checked steps build, wherever those overflow |
| ObstackProperties.Grow0IsGrowThenNul | sysincludes/obstack.h:306-315 | grow0 builds what grow followed by 1grow of a NUL builds, even if they overflow differently |
| ObstackProperties.EmptyPMeansAllEmpty | sysincludes/obstack.h:288-294 | empty_p holds exactly when there is one chunk and every live string is empty |
| ObstackMacros.CopyInto | sysincludes/obstack.h:302-302 | memcpy replaces exactly the target bytes |
| ObstackMacros.FindOwner | sysincludes/obstack.h:197-197 | the walk along the prev chain stops at the newest chunk that owns the object |
| ObstackMacros.ObstackControl.constructor | sysincludes/obstack.h:153-180 | a begun obstack has one chunk, an empty growing object at its first position, and maybe_empty_object clear |
| ObstackMacros.ObstackControl.NewChunk | sysincludes/obstack.h:184-184 | the imperative overflow computes the specified snapshot, changes no byte outside the chunks, the one given back included, and leaves temp alone |
| ObstackMacros.ObstackControl.SlowFree | sysincludes/obstack.h:197-197 | the imperative slow path unwinds to the owner of the object and leaves temp alone |
| ObstackMacros.ObstackControl.Grow1Fast | sysincludes/obstack.h:254-254 | stores one byte and advances |
| ObstackMacros.ObstackControl.BlankFast | sysincludes/obstack.h:256-256 | moves next_free and nothing else |
| ObstackMacros.ObstackControl.GnuMakeRoom | sysincludes/obstack.h:280-286 | the test by remaining room computes the specified snapshot |
| ObstackMacros.ObstackControl.GnuGrow | sysincludes/obstack.h:296-304 | computes the specified snapshot, bytes of all chunks included, and changes no byte outside the chunks |
| ObstackMacros.ObstackControl.GnuGrow0 | sysincludes/obstack.h:306-315 | computes the specified snapshot |
| ObstackMacros.ObstackControl.GnuGrow1 | sysincludes/obstack.h:317-323 | is grow of a single byte |
| ObstackMacros.ObstackControl.GnuWordGrow | sysincludes/obstack.h:329-341 | ptr_grow and int_grow are grow of the bytes of the datum |
| ObstackMacros.ObstackControl.GnuWordGrowFast | sysincludes/obstack.h:343-357 | store, then advance, appends the bytes of the datum |
| ObstackMacros.ObstackControl.GnuBlank | sysincludes/obstack.h:359-366 | computes the specified snapshot, for growing and shrinking lengths |
| ObstackMacros.ObstackControl.GnuAlloc | sysincludes/obstack.h:368-372 | is blank followed by finish and returns the base of the blank object |
| ObstackMacros.ObstackControl.GnuCopy | sysincludes/obstack.h:374-378 | is grow followed by finish and returns the base of the grown object |
| ObstackMacros.ObstackControl.GnuCopy0 | sysincludes/obstack.h:380-384 | is grow0 followed by finish and returns the base of the grown object |
| ObstackMacros.ObstackControl.GnuFinish | sysincludes/obstack.h:388-401 | computes the specified snapshot and returns the old base |
| ObstackMacros.ObstackControl.GnuFree | sysincludes/obstack.h:403-409 | the pointer tests choose the specified path |
| ObstackMacros.ObstackControl.PortableMakeRoom | sysincludes/obstack.h:431-434 | the test by end address, through temp, computes the same snapshot as for GNU C |
| ObstackMacros.ObstackControl.PortableGrow | sysincludes/obstack.h:436-441 | the same snapshot as for GNU C, with the length of the copy and of the advance read from temp after the overflow |
| ObstackMacros.ObstackControl.PortableGrow0 | sysincludes/obstack.h:443-449 | the same snapshot as for GNU C, with the length read from temp after the overflow |
| ObstackMacros.ObstackControl.PortableGrow1 | sysincludes/obstack.h:451-454 | the same snapshot as for GNU C |
| ObstackMacros.ObstackControl.PortableWordGrow | sysincludes/obstack.h:456-464 | the same snapshot as for GNU C |
| ObstackMacros.ObstackControl.PortableWordGrowFast | sysincludes/obstack.h:466-470 | advancing first and storing behind appends the same bytes |
| ObstackMacros.ObstackControl.PortableBlank | sysincludes/obstack.h:472-476 | the same snapshot as for GNU C |
| ObstackMacros.ObstackControl.PortableAlloc | sysincludes/obstack.h:478-479 | the same snapshot and address as for GNU C |
| ObstackMacros.ObstackControl.PortableCopy | sysincludes/obstack.h:481-482 | the same snapshot and address as for GNU C |
| ObstackMacros.ObstackControl.PortableCopy0 | sysincludes/obstack.h:484-485 | the same snapshot and address as for GNU C |
| ObstackMacros.ObstackControl.PortableFinish | sysincludes/obstack.h:487-499 | the same snapshot and address as for GNU C, with the address kept in temp |
| ObstackMacros.ObstackControl.PortableFree | sysincludes/obstack.h:501-507 | the offset tests choose the same path as the pointer tests |
| ObstackBuilds.PermittedIsAdmitted | sysincludes/obstack.h:280-409 | every call permitted on a represented stack is within the contract of the imperative macros |
| ObstackBuilds.GnuCall | sysincludes/obstack.h:254-409 | any call with the macros for GNU C, alloc, copy and copy0 included, has the specified effect, returns the specified address and changes no byte outside the chunks |
| ObstackBuilds.PortableCall | sysincludes/obstack.h:411-507 | any call with the macros for other compilers has the same effect, returns the same address and changes no byte outside the chunks |
| ObstackBuilds.Lockstep | sysincludes/obstack.h:254-509 | from equal states, every sequence of calls, as far as it is within the contract, returns equal addresses and ends in equal control blocks and equal memory under both versions of the macros |
| ObstackBuilds.CallIsRun | sysincludes/obstack.h:368-384 | a permitted call is a legal run of the operations it stands for, and the address it returns is that of the object it pushed |
| ObstackBuilds.CallMeans | sysincludes/obstack.h:254-409 | every permitted call does to the stack what its macro is documented to do: make_room nothing but leave room, the grow forms append exactly their bytes, grow0 a NUL as well, blank delta unspecified bytes or -delta fewer, finish pushes the growing bytes, alloc, copy and copy0 push them with theirs appended, free pops back to the object at the address given; exactly those that push return an address, that of the object pushed |
| ObstackBuilds.PermittedExactly | sysincludes/obstack.h:254-409 | which calls are permitted: those whose bytes fit or for which the allocator has a chunk, for the unchecked forms only the former, and freeing the address of any live object or of the growing one |
| ObstackBuilds.MacroCall | sysincludes/obstack.h:254-507 | one permitted call with either version takes the obstack to the stack its macro is documented to make, with the returned address on top of it |
| ObstackBuilds.MacroRun | sysincludes/obstack.h:254-507 | a run of permitted calls with either version takes the obstack through stacks each of which its call turns into the next as documented, to the stack the specification arrives at |
| ObstackBuilds.RunFromBegin | sysincludes/obstack.h:27-32 | the same from a begun obstack on: the imperative macros refine the stack of byte strings over every run |
| Features.Normalise | sysincludes/features.h:178-222 | the aliases, _GNU_SOURCE and the default set are settled as the closed form says |
| Features.EnableC | sysincludes/features.h:224-240 | the ISO C flags, and failure on an empty __STDC_VERSION__ |
| Features.ImplyPosix | sysincludes/features.h:255-282 | the POSIX level implied by the default set or by _XOPEN_SOURCE |
| Features.RaiseForThreads | sysincludes/features.h:284-295 | the threading macros raise a lower or missing level to 199506 |
| Features.ChoosePosix | sysincludes/features.h:255-295 | the level in force is the closed form's level |
| Features.EnablePosix | sysincludes/features.h:297-327 | the flags that follow from the level, and failure on an empty _POSIX_C_SOURCE |
| Features.EnableXopen | sysincludes/features.h:329-353 | the flags that follow from _XOPEN_SOURCE |
| Features.EnableFiles | sysincludes/features.h:355-373 | the large-file and *at flags, and failure on an empty _FILE_OFFSET_BITS |
| Features.Include | sysincludes/features.h:118-432 | the whole header fails exactly on malformed environments and otherwise leaves the closed form's macros and flags |
| FeatureTable.LanguageTable | sysincludes/features.h:178-228 | for every environment, exactly which user macros turn on ISO C11, the GNU extensions and the BSD and SVID set |
| FeatureTable.XopenTable | sysincludes/features.h:43-46 | for every environment, X/Open features exactly from their edition on: 500, 600, 700 |
| FeatureTable.FilesTable | sysincludes/features.h:47-49 | for every environment, exactly which user macros turn on the large-file features; the 64-bit default exactly for _FILE_OFFSET_BITS equal to 64 |
| FeatureTable.MalformedExactly | sysincludes/features.h:224-365 | the header fails exactly on an empty macro in a comparison, an empty _POSIX_C_SOURCE only if nothing else replaces it |
| FeatureTable.ImplicitlyExactly | sysincludes/features.h:255-282 | exactly when the POSIX level is recorded as not chosen by the user |
| FeatureTable.RewriteTable | sysincludes/features.h:106-109 | implied macros are defined and all others stay as they are |
| FeatureTable.LevelOfBundle | sysincludes/features.h:50-52 | with _GNU_SOURCE, _DEFAULT_SOURCE, _BSD_SOURCE or _SVID_SOURCE, exactly the features of 200809 and those asked for |
| FeatureTable.LevelNamed | sysincludes/features.h:36-42 | with _POSIX_C_SOURCE, exactly the features of that level: from 1, 2, 199309, 199506, 200112 and 200809 on |
| FeatureTable.LevelOfSource | sysincludes/features.h:36-36 | with _POSIX_SOURCE alone, 1003.1 and no later edition |
| FeatureTable.LevelOfXopen | sysincludes/features.h:270-280 | without those, _XOPEN_SOURCE brings the features of level 2, 199506, 200112 or 200809 |
| FeatureTable.LevelByDefault | sysincludes/features.h:60-65 | without that, the features of 200809 |
| FeatureTable.LevelOfStrict | sysincludes/features.h:60-65 | under __STRICT_ANSI__, none |
| FeatureTable.NothingSelected | sysincludes/features.h:60-65 | nothing selected gives the default set, __STRICT_ANSI__ alone nothing |
| FeatureTable.LanguageAlone | sysincludes/features.h:23-26 | each language macro alone, with __STDC_VERSION__ compared to 199409, 199901 and 201112; _ISOC95_SOURCE selects nothing |
| FeatureTable.PosixAlone | sysincludes/features.h:36-42 | each POSIX or threading macro alone enables exactly its documented set |
| FeatureTable.DocumentedExample | sysincludes/features.h:65-67 | the example in the comment: ISO C, 1003.1 and 1003.2, but nothing else |
| FeatureTable.XopenAlone | sysincludes/features.h:43-46 | each X/Open macro alone enables exactly its documented set |
| FeatureTable.FilesAlone | sysincludes/features.h:47-50 | each file macro alone enables exactly its documented set |
| FeatureTable.BundlesAlone | sysincludes/features.h:51-53 | each of _DEFAULT_SOURCE, _BSD_SOURCE and _SVID_SOURCE alone gives the default set even under __STRICT_ANSI__, _GNU_SOURCE everything but the 64-bit default |
| FeatureTable.AliasesAgree | sysincludes/features.h:178-187 | _BSD_SOURCE and _SVID_SOURCE are aliases for _DEFAULT_SOURCE in every environment |
| Features.MonotoneExactly | sysincludes/features.h:57-67 | selecting more never removes a feature, exactly for the environments whose features do not hang on an implicit choice |
| Features.SturdyIsMonotone | sysincludes/features.h:189-377 | for those environments, every further selection keeps every feature |
| Features.FragileLoses | sysincludes/features.h:215-222 | for every other environment, naming a POSIX level removes a feature |
| Features.ExplicitDefaultIsMonotone | sysincludes/features.h:51-52 | once the default set is asked for by name, selections accumulate |
| Features.GnuIsGreatest | sysincludes/features.h:189-211 | _GNU_SOURCE enables whatever any environment enables, except the 64-bit offset flag |
| Features.ResolutionIsIdempotent | sysincludes/features.h:118-142 | feeding the rewritten macros back changes neither the macros nor any feature; only __USE_POSIX_IMPLICITLY is lost, exactly if it was set |
| Features.StandardsAreNested | sysincludes/features.h:224-357 | for every environment the flags are closed under the inclusion of the standards' editions |
| Features.ThreadsOnlyRaise | sysincludes/features.h:284-289 | _REENTRANT or _THREAD_SAFE or both keep every feature, make the level the greater of the old one and 199506, and cause no failure |
| Features.NotASynonym | sysincludes/features.h:57-58 | with nothing else selected, _REENTRANT keeps the default set and _POSIX_C_SOURCE=199506L does not |
| Features.SynonymExactly | sysincludes/features.h:57-58 | the exact condition under which the threading macros and _POSIX_C_SOURCE=199506L select the same features |
| Cleanup.NormalExit | sysincludes/pthread.h:580-601 | without cancellation a handler runs iff execute is non-zero, deferring blocks run deferred, as every action records, and restore the type before their handler, and the cleanup stack is as before |
| Cleanup.CancellationRunsEnclosing | sysincludes/pthread.h:569-575 | on cancellation or exit at any instruction of any nesting, pushes and pops included, exactly the handlers of the enclosing blocks run, once each, innermost first; the one of a pop struck as it restores only if it is not removed before |
| CancellationPoints.CutShortExactly | sysincludes/pthread.h:513-519 | a thread is cut short exactly if its program has an exit, or, with the request made by then, a cancellation point or an instruction with the asynchronous type before or after it: no cancellation is missed and none strikes out of turn |
| CancellationPoints.CutAtFirstStop | sysincludes/pthread.h:513-519 | every run that is cut short is the run without a request up to the first such instruction, followed by the handlers of the blocks around it, innermost first, under the type that the text gives |
| CancellationPoints.TypeInForce | sysincludes/pthread.h:587-601 | a thread that gets to an instruction gets there under the cancellation type that the nesting of blocks gives |
| CancellationPoints.ReachedPointEnds | sysincludes/pthread.h:516-519 | a thread that gets to a cancellation point with the request made ends there under either type, with the handlers around the point and then the older ones |
| CancellationPoints.PointEnds | sysincludes/pthread.h:516-519 | at the point itself the action is not performed and every handler on the stack runs |
| CancellationPoints.AsynchronousEndsAtOnce | sysincludes/pthread.h:513-514 | under the asynchronous type a request made ends the thread before any further instruction |
| CancellationPoints.DeferredActs | sysincludes/pthread.h:513-514 | under the deferred type an action that is no cancellation point is performed whatever is pending |
| CancellationPoints.PointInBlock | sysincludes/pthread.h:569-575 | a cancellation point in a plain block runs the handler even if execute is zero |
| CancellationPoints.BlockLeft | sysincludes/pthread.h:576-601 | a block left normally ran its body with the handler on the stack and deferred if it defers, and then runs the handler exactly if execute is not zero, under the restored type |
| Cleanup.EndsAtSite | sysincludes/pthread.h:569-575 | a thread cut short ends at an instruction of its program with the handlers around that instruction on top of its stack |
| Cleanup.StackBelowWaits | sysincludes/pthread.h:574-575 | handlers pushed earlier are not disturbed and run after the program's own |
| Cleanup.DeferringBlockProtects | sysincludes/pthread.h:587-601 | the body of a deferring block, without cancellation points, runs through even with a cancellation pending under an asynchronous type outside; at the pop, if the restored type lets it strike, the thread ends and the block's handler runs by the order of the pop alone, otherwise the handler runs iff execute is non-zero |
| Cleanup.OrdersAgreeExactly | sysincludes/pthread.h:598-601 | restoring before disarming and after it leave the same thread exactly if no pop restores the asynchronous type with the cancellation already pending |
| Cleanup.OrdersDiffer | sysincludes/pthread.h:722-728 | for an empty deferring block under an asynchronous type with a cancellation arriving inside, the handler runs in one order and not in the other, whatever execute says |
| Cleanup.AgreeForEveryRequest | sysincludes/pthread.h:590-601 | both orders agree for every time of cancellation exactly if the program reaches no deferring block entered under the asynchronous type whose body leaves the deferred type alone |
| CleanupExpansions.CleanupClass.constructor | sysincludes/pthread.h:560-561 | a new frame is set to run its handler |
| CleanupExpansions.CleanupClass.Defer | sysincludes/pthread.h:564-565 | saves the cancellation type and makes it deferred |
| CleanupExpansions.CleanupClass.Restore | sysincludes/pthread.h:566-566 | brings the saved type back and says whether that lets a pending cancellation strike |
| CleanupExpansions.CleanupClass.Destroy | sysincludes/pthread.h:562-562 | runs the handler iff the frame is still set to |
| CleanupExpansions.CleanupRoutine | sysincludes/pthread.h:608-613 | runs the handler iff the frame is still set to |
| CleanupExpansions.BlockOutcome | sysincludes/pthread.h:576-601 | what a block that restores before it disarms makes of a thread, given what its body makes of it, strikes before the pop and at the restore included |
| CleanupExpansions.RunDestructor | sysincludes/pthread.h:552-602 | the C++ expansion of every program does what the cleanup stack does, restoring while the frame is armed |
| CleanupExpansions.RunAttribute | sysincludes/pthread.h:622-655 | the cleanup-attribute expansion of every program does what the cleanup stack does, restoring while the frame is armed |
| CleanupExpansions.UnwindRegistered | sysincludes/pthread.h:672-677 | the chain of long jumps runs every registered handler once, newest first |
| CleanupExpansions.SetjmpPop | sysincludes/pthread.h:722-728 | the pop unregisters, then restores, then tests execute, and a strike at the restore runs the handlers left in the list |
| CleanupExpansions.RunSetjmp | sysincludes/pthread.h:665-730 | the setjmp expansion of every program does what the cleanup stack does, restoring after it has unregistered |
| CleanupExpansions.RunAllThree | sysincludes/pthread.h:549-731 | the destructor and attribute expansions always leave the same trace and type; the setjmp expansion does exactly if no deferring block pops back to the asynchronous type with the cancellation already pending |
| Argz.NextPassesOneString | sysincludes/argz.h:131-145 | from any pointer into a vector argz_next strictly advances past exactly one string and its NUL, or ends with the vector |
| Argz.EncodeInjective | sysincludes/argz.h:35-37 | a vector determines its list of strings |
| Argz.WhileLoop | sysincludes/argz.h:116-118 | the first loop terminates and visits the entries argz_next leads through |
| Argz.ForLoop | sysincludes/argz.h:122-124 | the second loop terminates and visits the entries from argz on |
| Argz.VisitedRebuildsRest | sysincludes/argz.h:131-151 | the strings visited from any pointer on, each with its NUL, rebuild the rest of the vector |
| Argz.WhileLoopVisitsList | sysincludes/argz.h:112-118 | for every list of NUL-free strings, the first loop visits exactly that list in order |
| Argz.LoopsAgreeExactly | sysincludes/argz.h:112-124 | the two loops visit the same entries exactly if the vector is not empty or its pointer is null |

## Left out

- ObstackMacros.ObstackControl.NewChunk: the size formula, the allocation-failure handler and the extra allocator argument are foreign calls; any fresh chunk that is large enough is accepted.
- ObstackMacros.ObstackControl.constructor: the pointer casts and default sizes of obstack_init and its variants.
- ObstackMacros.ObstackControl.SlowFree: freeing the null pointer or an address in no chunk.
- ObstackMacros.ObstackControl.GnuGrow: overflow of addresses, and source bytes that overlap the growing object, which are outside the contract.
- ObstackBuilds.Lockstep: lengths that do not fit an int, which the two versions of the macros convert at different places; lengths are unbounded here.
- ObstackMacros.ObstackControl: the prev pointers are modelled as one sequence of chunk headers rather than as linked records; the chunks' bytes are updated in place in one memory.
- obstack_object_size, obstack_room, obstack_base and the accessors: single expressions.
- obstack_memory_used: declared only.
- Features.Include: the C++ branches, _FORTIFY_SOURCE, __GLIBC_USE_DEPRECATED_GETS, __USE_EXTERN_INLINES and the compiler version tests.
- CleanupExpansions.RunAllThree: a cancellation arrives before or after a push or a pop, not in the middle of one, where the expansions have different moments to be struck at and share no clock.
- CleanupExpansions.RunDestructor: cancellation inside a handler, and jumps or returns out of a block, which the macros do not allow.
- Cleanup.NormalExit: pthread_setcancelstate, and loops and branches, which appear unrolled.
- Argz.NextPassesOneString: the other argz functions are declared only.
- The locks, condition variables, barriers and attributes of pthread.h, and all headers that only declare.
