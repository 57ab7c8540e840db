# Verified model of the counterfactual-execution SDK

The SDK asks what a frozen block would have done under another pool configuration. It describes a configuration as packed 256-bit
storage words with named bit fields, turns typed interventions into masked word writes, binds them into committed inputs, keeps the
questions in append-only sessions, runs each of them at most once under explicit consent, and executes blocks on a partial witness
of the checkpoint state. This project models that logic in Dafny and proves the properties it rests on.

How the files fit together:

- `wrappers`, `bits`, `orders`, `json_values`: results, words as naturals with a mask, shift and field library proved bit by bit,
  sorting by a total order, JSON values.
- `descriptors` (what a valid descriptor is), `validator` (the validation loops), `composition` (the bit-level denotation of a set of
  interventions), `composer` (the imperative composition, proved equal to it), `composition_facts`, `composition_meaning`,
  `composition_writes` (what it means and when it refuses), `originals`, `worlds`. `spelled_values` (JSON whose numbers have three
  spellings, with Python's equality), `prepared_inputs`, `prepared_texts`, `prepared_spellings`, `prepared_hookr1`: prepared inputs,
  what they say, when they are fixpoints, and inputs that are not.
- `hookr1`, `hookr1_valid`, `tuning`: the concrete profile. `overlay`, `legacy_words`, `legacy_refinement`, `legacy_descriptor`,
  `legacy_equivalence`, `single_writes`: the two older implementations and their agreement with the descriptor.
- `packed_words`: the storage decoder and the byte-level LP edit. `resources`: the host-headroom guard. `json_text`, `json_parser`,
  `json_grammar`, `json_reading`, `json_roundtrip`, `json_depth`: canonical and strict JSON, and the grammar it is read by.
- `prestate_trie`, `prestate_bridge`, `prestate_runs`: the hydrating witness bridge; `prestate_honest`, `prestate_ledger`,
  `prestate_replay`: truthful sources, what calls cost, and replay of a sealed witness. `block_loop`, `block_session`: the block loop.
- `consent`, `consent_runs`, `consent_origins`, `consent_progress`: grants, dispatch and attempts as steps of many processes, where
  they come from and when they complete. `session_identity`, `session_store`, `session_store_runs`, `session_store_origins`,
  `session_store_progress`, `session_store_limit`, `session_store_race`: the session store. `session_verification`,
  `session_evidence`: verification and comparison. `session_handoff`, `session_handoff_facts`, `session_packages`: packages between
  homes.

Code that changes state is modelled by methods and classes, each proved against a specification function or predicate; what the
SDK promises is then proved about the specification, for all inputs or all runs. Concurrent protocols are state machines: a run is any
list of steps of any processes, each step is one atomic filesystem or process action, and a crash can follow any of them.

Where the code falls short of what one would expect of it, the model keeps the code and the exact condition is proved:

- Prepared inputs are fixpoints of validation only with originals listed in index order (`OutOfOrderNeverBuilds`, instance
  `SwappedNeverBuilds`) and only if the overlay spells its numbers as integers, since Python holds True and 1.0 equal to 1
  (`PreparedInputsAreFixpoints`, `RespellingExactly`, instance `SomeInputIsLoose`).
- The limit of eight variants is counted before the rename that places a record, so it fails for some runs (`NineVariants`). It is
  kept from a world on, short of a new count, exactly when listed and still placeable records are at most eight together
  (`LimitExactly`). A session over the limit still exports, to a package nobody accepts (`ExportIsAuthentic`).
- The single-kind LP write asks for Root mode 3 although it leaves the mode alone; the overlay and the descriptor do not
  (`LpSameAsOverlay`, `OverlayTakesOtherModes`).

## Model

| member | source | states |
|---|---|---|
| Validator.ValidateContracts | sdk/rhook_alpha/profile_descriptor.py:280-298 | The loop with its name dictionary and address set accepts exactly the contract lists that have distinct names, distinct non-zero addresses and, where code is pinned, a non-zero hash listed in the release manifest under that role and address. |
| Validator.ValidateTargets | sdk/rhook_alpha/profile_descriptor.py:309-334 | Accepts exactly when every target is code-pinned, has 1 to 8 words ending below 2^256, no two targets share a contract slot and the configuration target is declared. The slot set of the source decides overlap of ranges. |
| Validator.ValidateFields | sdk/rhook_alpha/profile_descriptor.py:335-357 | The accumulated occupancy masks of the loop accept exactly the layouts in which every field fits its word and type and no two fields of one word share a bit (stated on bit ranges, not on masks). |
| Validator.ValidateOriginals | sdk/rhook_alpha/profile_descriptor.py:358-371 | Accepts exactly when every word of every target is pinned, once, to a 256-bit value. |
| Validator.ValidateKinds | sdk/rhook_alpha/profile_descriptor.py:372-419 | Accepts exactly when kinds are sorted and distinct, each assigns declared non-address fields once, uses declared operands only, and conflicts are sorted, known and symmetric. |
| Validator.Validate | sdk/rhook_alpha/profile_descriptor.py:261-419 | The whole validation succeeds if and only if the five section predicates hold; on failure the first broken section, in the order of the code, decides the error. |
| Composer.EvaluatePredicate | sdk/rhook_alpha/profile_descriptor.py:550-570 | The factor loop of a product bound, or the comparison, computes the denotation `Holds`, including the refusal of a negative factor at the first one met. |
| Composer.AssignAll | sdk/rhook_alpha/profile_descriptor.py:625-634 | One kind: the mask-and-shift updates of result and used words keep them equal to the denotation (each word is the original with the applied fields overwritten, each mark the union of the applied masks), or give the denotation's first error. |
| Composer.FindStrayBits | sdk/rhook_alpha/profile_descriptor.py:638-640 | The non-target-bits self-check finds nothing after any sequence of applied assignments. |
| Composer.FindWrongField | sdk/rhook_alpha/profile_descriptor.py:641-642 | The field-value self-check finds nothing after any sequence of applied assignments. |
| Composer.CollectWrites | sdk/rhook_alpha/profile_descriptor.py:643-650 | The write loop yields the denotation's writes, one for each touched word in declaration order, or the no-effect refusal. |
| Composer.ComposeItems | sdk/rhook_alpha/profile_descriptor.py:606-652 | For every valid descriptor the imperative composition, run over masked 256-bit words in the order of checks of the code, returns what the bit-level denotation `Compose` says: same words, writes, fields and first error. What its fields are: `CompositionMeaning.FieldsDecoded` and `CompositionMeaning.FieldsBeforeAndAfter`. |
| CompositionMeaning.CanonicalSet | sdk/rhook_alpha/profile_descriptor.py:573-594 | The canonical set is a sorted permutation of the supplied items, non-empty, of declared kinds, each used once. |
| CompositionMeaning.CanonicalForgetsOrder | sdk/rhook_alpha/profile_descriptor.py:573-594 | Two orders of the same items give the same canonical set or the same refusal. |
| CompositionMeaning.CanonicalTwice | sdk/rhook_alpha/profile_descriptor.py:573-594 | Canonicalising a canonical set returns it. |
| CompositionMeaning.ComposeForgetsOrder | sdk/rhook_alpha/profile_descriptor.py:606-652 | Any permutation of the supplied items gives the same words, writes, fields and error code. |
| CompositionMeaning.AssignedFieldsHold | sdk/rhook_alpha/profile_descriptor.py:625-634 | In an accepted composition every field assigned by a selected kind holds its operand evaluated on the originals: the update is simultaneous, not sequential. |
| CompositionMeaning.OtherBitsUnchanged | sdk/rhook_alpha/profile_descriptor.py:633-640 | In an accepted composition every bit that no selected kind assigns is the original bit. |
| CompositionMeaning.OtherFieldsKept | sdk/rhook_alpha/profile_descriptor.py:633-642 | A declared field that no selected kind assigns decodes to its original value. |
| CompositionMeaning.FieldsDecoded | sdk/rhook_alpha/profile_descriptor.py:606-652 | A result carries the canonical set and, for exactly the declared fields, the value before (`Get` on the originals) and the value after (`Get` on the composed words). |
| CompositionMeaning.FieldsBeforeAndAfter | sdk/rhook_alpha/profile_descriptor.py:651-652 | The value after is the operand evaluated on the originals for every field a selected kind assigns, and the value before for every other field. |
| CompositionMeaning.DemandsAndPromises | sdk/rhook_alpha/profile_descriptor.py:621-637 | In an accepted composition every selected kind met all its `requires` on the originals and all its `ensures` on the composed words. |
| CompositionFacts.MaskConflictExactly | sdk/rhook_alpha/profile_descriptor.py:621-634 | Once the preconditions and widths hold, collecting the assignments fails with a mask conflict if and only if two selected kinds assign the same field, and otherwise succeeds with all selected assignments. |
| CompositionWrites.WordKeptExactly | sdk/rhook_alpha/profile_descriptor.py:643-648 | A composed word equals its original exactly when every field applied to it already held the assigned value. |
| CompositionWrites.WritesAreTheChanges | sdk/rhook_alpha/profile_descriptor.py:643-650 | The writes of an accepted composition are exactly the declared words whose value changed, each once, with its true before and after values, in strictly ascending declaration order of target and word. |
| CompositionWrites.SomethingIsWritten | sdk/rhook_alpha/profile_descriptor.py:643-650 | An accepted composition writes at least one word. |
| CompositionWrites.RefusedExactly | sdk/rhook_alpha/profile_descriptor.py:621-649 | With preconditions and widths met, a canonical set is refused exactly for a shared field, else for a failing promise, else when some touched word keeps its value; otherwise it is accepted. |
| CompositionWrites.SelfChecksNeverFire | sdk/rhook_alpha/profile_descriptor.py:638-642 | The denotation never answers with one of the two self-check codes. It has no branch for either; that the code, which does run both checks, agrees is the content of `FindStrayBits` and `FindWrongField` through `ComposeItems`. |
| Originals.ReadOriginals | sdk/rhook_alpha/profile_descriptor.py:597-603 | The pin loop over the original-state words, in any listing order, fills every word of every target with its pinned value. |
| Originals.OriginalsAreSupplied | sdk/rhook_alpha/profile_descriptor.py:597-615 | The originals read off a descriptor pass both original-state checks of composition. |
| Originals.OnlyTheOriginalsPass | sdk/rhook_alpha/profile_descriptor.py:609-615 | Exactly one assignment of words passes the two original-state checks: the originals of the descriptor. |
| Worlds.ApplyWrites | sdk/rhook_alpha/profile_descriptor.py:693-714 | Applying writes changes storage only when the whole list is declared and every original matches, and then only in the variant world; every refusal leaves the storage as it was. The returned rows carry the after value of the world. |
| Worlds.PlacesDistinct | sdk/rhook_alpha/profile_descriptor.py:298-333 | In a valid descriptor two declared words share an address and slot only if they are the same word. |
| Worlds.WorldsOfComposition | sdk/rhook_alpha/profile_descriptor.py:643-714 | On any state holding the originals, the composed writes are accepted in both worlds; the baseline state is unchanged, the variant holds exactly the composed words at the declared places and every other place is as before. |
| Worlds.NeverAppliedTwice | sdk/rhook_alpha/profile_descriptor.py:705-714 | After the composed writes were applied in the variant world, applying the same list again, in either world, is refused for a changed original. |
| PreparedInputs.CanonicalJsonTwice | sdk/rhook_alpha/profile_descriptor.py:573-594 | The JSON spelling of a canonical set is accepted and decodes to the same set. |
| PreparedInputs.PreparedInputsAreFixpoints | sdk/rhook_alpha/profile_descriptor.py:753-822 | Rebuilding an input from its own interventions and engine returns it unchanged if and only if `validate_spec` accepts it, its engine has the three keys, its overlay spells every number as an integer (no boolean, no float) and repeats the state root as the checkpoint spells it, and the original words of the configuration target are listed as in index order. |
| PreparedInputs.BuildsExactly | sdk/rhook_alpha/profile_descriptor.py:753-792 | `build_spec` succeeds if and only if the source is bound to pool, chain and release manifest, the engine has its three keys, the items are a canonical set that composes on the originals, and the original words of the configuration target are listed in index order. |
| PreparedInputs.BuildIsIdempotent | sdk/rhook_alpha/profile_descriptor.py:753-792 | What `build_spec` returns, rebuilt from its own interventions and engine, is returned unchanged. |
| PreparedTexts.BuiltInputSpellsTheChanges | sdk/rhook_alpha/profile_descriptor.py:753-792 | The overlay of every built input has an entry for each word the composition changed and for no other, spelling its address, slot, original and composed value; its configurations spell the words of the target before and after. |
| PreparedInputs.IndexOrderedByWords | sdk/rhook_alpha/profile_descriptor.py:753-792 | On a valid descriptor the listing order that building needs is a condition on the words themselves: their texts agree exactly when the words do. |
| PreparedSpellings.OutOfOrderNeverBuilds | sdk/rhook_alpha/profile_descriptor.py:771-792 | With the original words of the configuration target listed out of index order no source, set or engine builds: `build_spec` takes baseline words by index, its closing `validate_spec` by listing. |
| PreparedSpellings.RespellingExactly | sdk/rhook_alpha/profile_descriptor.py:795-822 | The failing family, exactly: an overlay that Python holds equal to that of a prepared input, put in its place and committed again, is accepted if and only if it leaves the interventions as they were, and is what building returns if and only if it is no respelling. |
| PreparedSpellings.WordIndexRespelled | sdk/rhook_alpha/profile_descriptor.py:795-822 | Any other spelling of a write index (False for 0, 0.0 for 0) gives an input that is accepted and is not what building it returns. |
| PreparedSpellings.RevisionRespelled | sdk/rhook_alpha/profile_descriptor.py:795-822 | The same for the revision in the overlay's descriptor, for example 2.0 for 2. |
| PreparedHookr1.LpInputsBuild | sdk/rhook_alpha/profile_descriptor.py:753-792 | Every hookr-1 profile whose LP rate is 100 builds an input from any bound source and three-key engine, for every rate up to 99. |
| PreparedHookr1.SomeInputIsLoose | sdk/rhook_alpha/profile_descriptor.py:795-822 | Whatever the commitment function, there is a hookr-1 input that building returns unchanged and whose two respellings, word index False and revision 2.0, are accepted and not what building returns. |
| PreparedHookr1.RespelledInputs | sdk/rhook_alpha/profile_descriptor.py:795-822 | On every input with one write at index 0, the respellings of that index as False and as 0.0 and of the revision as any float text of its value are accepted and not what building returns. |
| PreparedHookr1.SwappedNeverBuilds | sdk/rhook_alpha/profile_descriptor.py:771-792 | A concrete family out of order: hookr-1 with its first two, different, original words listed the other way round is a valid descriptor from which nothing builds. |
| Hookr1Valid.HookrIsValid | sdk/tools/make_hookr1_descriptor.py:52-108 | The hookr-1 layout, kinds and bounds form a valid descriptor for every deployment with distinct non-zero addresses, non-zero code hashes and slots in range, and every six original words. |
| Overlay.Run | sdk/rhook_alpha/config_overlay.py:86-118 | The overlay engine, with its own marks, masks and self-checks, computes `ComposeOverlay` on every list of items and all original words; its two self-checks never fire. |
| LegacyWords.ModeThreeIsFlags | sdk/rhook_alpha/config_overlay.py:30-32 | The eight-bit mode is 3 exactly when the dynamic flag and the recapture flag are set and the six reserved bits are clear. |
| LegacyWords.ModeTwoIsFlagCleared | sdk/rhook_alpha/config_overlay.py:63-67 | On a Root record in mode 3, writing mode 2 is clearing bit 248. |
| LegacyWords.AndNotModeBit | sdk/rhook_alpha/interventions.py:70-73 | Masking a Root word with the complement of 1 << 248 is setting the one-bit dynamic flag to 0. |
| LegacyRefinement.OverlayClosedForm | sdk/rhook_alpha/config_overlay.py:86-118 | The overlay engine accepts exactly the one or two item sets whose parameters are admitted and whose original settings are those expected; then its words and writes have a closed form. |
| LegacyDescriptor.DynamicDemandsAreMeets | sdk/tools/make_hookr1_descriptor.py:83-89 | The five demands of DYNAMIC_FEE hold on the hookr-1 originals exactly when the three overlay preconditions hold on the same words. |
| LegacyDescriptor.LpDemandsAreMeets | sdk/tools/make_hookr1_descriptor.py:103-107 | The demand of LP_REWARDS_BPS holds on the hookr-1 originals exactly when the overlay precondition LP 100 holds. |
| LegacyEquivalence.SameAsOverlay | sdk/rhook_alpha/profile_descriptor.py:606-652 | Refinement: for every deployment, six original words and items of the two legacy kinds, descriptor composition and overlay engine accept the same sets and give the same Rules and Root words and the same writes in the same order; the overlay engine refuses every other set. |
| SingleWrites.LpSameAsOverlay | sdk/rhook_alpha/interventions.py:40-67 | With baseline LP rate 100 the single-kind LP write accepts exactly the bound projections (mode 3 included) and rates the overlay engine accepts, and produces its masked word. |
| SingleWrites.OverlayTakesOtherModes | sdk/rhook_alpha/interventions.py:40-67 | Mode 3 is the difference: the same bound projection with its Root record in any other mode is refused by the single-kind LP write and accepted by the overlay engine. |
| SingleWrites.DynamicSameAsOverlay | sdk/rhook_alpha/interventions.py:40-73 | The single-kind Dynamic Fee write accepts exactly the bound projections the overlay engine accepts, with the same two masked words in the same order. |
| Tuning.CeilingExactly | sdk/tools/make_hookr1_descriptor.py:160-167 | 3000 + 80*lp + span - span/5 is at most 17800 for every lp up to 100 if and only if span is at most 8500. |
| Tuning.PromisesAreCaps | sdk/tools/make_hookr1_descriptor.py:94-101 | On the hookr-1 layout the eight ordered promises of DYNAMIC_FEE_TUNING hold exactly within the stated caps and otherwise fail as an invariant, never as a negative factor. |
| Tuning.CapImpliesProducts | sdk/tools/make_hookr1_descriptor.py:94-101 | With base 3000 and protocol share 2000 the range promises alone imply both product bounds. |
| Tuning.AcceptedTuning | sdk/tools/make_hookr1_descriptor.py:90-102 | Every accepted set with DYNAMIC_FEE_TUNING ends within the caps, keeps base fee and protocol share, and over base 3000 leaves the Root cap room for every LP rate. |
| Tuning.NegativeFactorNeverArises | sdk/rhook_alpha/profile_descriptor.py:550-570 | On hookr-1 no set of items and no words make composition report a negative factor. |
| PackedWords.ShiftIsOffset | sdk/engine/adapters/hookr-case/index.ts:57-66 | The running shift of the width loop is the declared bit offset of each field and ends at 256. |
| PackedWords.DecodeWord | sdk/engine/adapters/hookr-case/index.ts:61-66 | The shift loop gives each of the twelve names the bits at its declared offset and width. |
| PackedWords.DecodeStorage | sdk/engine/adapters/hookr-case/index.ts:56-74 | Decoding succeeds exactly when both address words fit 160 bits; then every field of the four words is the declared bit range. |
| PackedWords.UnpackPack | sdk/engine/adapters/hookr-case/index.ts:60-66 | Packing the decoded fields returns the word: word 0 loses no bit. |
| PackedWords.PackUnpack | sdk/engine/adapters/hookr-case/index.ts:60-66 | Decoding packed fitting fields returns the fields. |
| PackedWords.MaskedReplacesLp | sdk/engine/adapters/hookr-case/index.ts:166-171 | Decoding the masked replacement gives the old configuration with only lpBps replaced. |
| PackedWords.UnrelatedBitsKept | sdk/engine/adapters/hookr-case/index.ts:170-171 | The unrelated-bits check of a plan passes for every word and rate. |
| PackedWords.PlanWord | sdk/engine/adapters/hookr-case/index.ts:161-171 | A plan succeeds exactly when the expected old rate is the decoded one and the new one is admitted and different; the new word decodes to the old configuration with that rate. |
| PackedWords.TwoBytesAreTheMask | sdk/engine/native/prestate/lp_branch.go:47-49 | Zeroing bytes 10 and 11 of a 32-byte big-endian word is clearing the sixteen bits from bit 160. |
| PackedWords.LpBytes | sdk/engine/native/prestate/lp_branch.go:44-46 | The two bytes spell exactly the LP field of the word. |
| PackedWords.CheckedLPReplacement | sdk/engine/native/prestate/lp_branch.go:40-50 | The guarded byte edit works on a fresh copy; result or error is that of the specification, checked in the order of the code. |
| PackedWords.ValidExactly | sdk/engine/native/prestate/lp_branch.go:52-64 | An intervention is valid exactly when its identity matches, its old word has LP 100 and its new word is the mask-level replacement by 0 (the same edit as `contract.py` line 25); its decoding then differs in the LP rate only. |
| Resources.Assess | sdk/engine/sdk_alpha/resources.py:29-46 | The two loops return the specified decision or the first failing check, with the true minimum of free memory. |
| Resources.MinimumFree | sdk/engine/sdk_alpha/resources.py:42-43 | The reported value is attained by a sample and no sample lies below it. |
| Resources.PairByPairIsWhole | sdk/engine/sdk_alpha/resources.py:29-46 | Every neighbouring pair is accepted if and only if the whole sequence is, in either mode. |
| Resources.AdmissionImpliesRuntime | sdk/engine/sdk_alpha/resources.py:29-46 | A sequence accepted for admission is accepted in runtime mode. |
| Resources.RuntimeGuard.Poll | sdk/engine/sdk_alpha/resources.py:79-89 | One poll: throttled polls change nothing; otherwise it accepts exactly when the sensor gives a valid sample and the whole chain so far plus that sample passes; a refusal carries the code of the sample or of the pair it fails on and leaves the chain as it was. |
| Resources.WholeRunPasses | sdk/engine/sdk_alpha/resources.py:59-89 | The admission samples followed by everything the guard accepted pass as one run. |
| Resources.AcceptedRun | sdk/engine/sdk_alpha/resources.py:35-41 | Over an accepted run the host stays the same, swap output is constant, swap use never rises and free memory never falls below the threshold. |
| Resources.AcceptedExactly | sdk/engine/sdk_alpha/resources.py:11-46 | A sequence is accepted if and only if it has two samples, each is healthy with the memory its mode asks for, all come from one machine with one swap-output count, and each begins in time after the one before with no more swap in use. |
| Resources.ElapsedIsBounded | sdk/engine/sdk_alpha/resources.py:22-38 | Over an accepted run time passes strictly, and elapsed time is bounded by the number of samples and gaps. |
| JsonParser.DepthWithin | sdk/developer/files.py:65-75 | The character scanner with its quote and escape flags, stopping at the first bracket beyond 64, accepts exactly the texts whose full scan has peak at most 64. |
| JsonRoundTrip.StringRoundTrip | sdk/developer/files.py:17-18 | Reading back an escaped string, whatever follows its closing quote, gives the string. |
| JsonRoundTrip.ValueRoundTrip | sdk/developer/files.py:17-18 | Reading the canonical text of any value, whatever delimiter follows, gives the value and leaves the rest; grammar of sections 2 to 7 of RFC 8259. |
| JsonRoundTrip.ParseCanonical | sdk/developer/files.py:17-18 | The canonical text of any value, with or without a newline, parses to the value. |
| JsonRoundTrip.TextInjective | sdk/developer/files.py:17-18 | Two values have the same canonical text only if they are equal. |
| JsonDepth.PeakIsNesting | sdk/developer/files.py:65-75 | On every text that parses, the scanner's peak depth is the nesting of the parsed value and it ends at depth 0 outside strings: brackets inside strings never count. |
| JsonReading.ParseExactly | sdk/developer/files.py:81-82 | The reader gives a value for a text if and only if the text spells it by a grammar that does not mention the reader: any space between tokens, any escape of each character, any order of distinct members, integers without leading zeros (sections 2 to 7 of RFC 8259). |
| JsonReading.OneValuePerText | sdk/developer/files.py:63-82 | No text spells two values. |
| JsonDepth.StrictExactly | sdk/developer/files.py:63-82 | `strict` gives a value for a text if and only if the text spells the value by that grammar and it nests at most 64 deep. |
| JsonDepth.StrictCanonical | sdk/developer/files.py:63-82 | Canonical text is accepted exactly up to nesting 64 and gives the value back. |
| JsonDepth.OneTextPerValue | sdk/rhook_alpha/profile_descriptor.py:196-206 | Descriptor parsing yields a value from exactly one text: its canonical text and a newline, if short, ASCII and not too deep. |
| PrestateTrie.WalksAgree | sdk/engine/native/prestate/bridge.go:208-247 | Two content-addressed stores cannot disagree on a trie walk that misses no node in either. |
| PrestateTrie.InterleavedWalkAgrees | sdk/engine/native/prestate/bridge.go:185-188 | A walk whose store changes between fetches, each time content addressed, still agrees with the complete state. |
| PrestateTrie.ProvedAccount | sdk/engine/native/prestate/proof.go:53-72 | The nodes an accepted proof visited suffice to read the account, and the proof's metadata are its fields. |
| PrestateTrie.ProvedSlot | sdk/engine/native/prestate/proof.go:73-115 | The nodes of an accepted proof suffice to read every requested slot, with the claimed value. |
| PrestateBridge.Bridge.Stop | sdk/engine/native/prestate/bridge.go:96-103 | The first stop is latched; later ones change nothing. |
| PrestateBridge.Bridge.Request | sdk/engine/native/prestate/bridge.go:125-144 | A request is refused after a stop, when sealed, after expiry or over budget, in this order; otherwise it is counted and recorded under the next number. |
| PrestateBridge.Bridge.Response | sdk/engine/native/prestate/bridge.go:145-155 | Response bytes are charged only within the per-response and total limits. |
| PrestateBridge.Bridge.Hydrate | sdk/engine/native/prestate/bridge.go:156-190 | One proof request: its nodes enter witness and disk exactly when source, deadline, budget and proof are good; otherwise the cause is latched. Over all runs: `PrestateRuns.RunKeeps`; which proofs are accepted: `PrestateHonest.AcceptedExactly`. |
| PrestateBridge.Bridge.Account | sdk/engine/native/prestate/bridge.go:208-227 | At any root: read, hydrate once on a miss, read again; a second miss stops the bridge. What a returned account is: `PrestateRuns.AccountAgrees` and `PrestateRuns.HydrationAnswersAccount`. |
| PrestateBridge.Bridge.Storage | sdk/engine/native/prestate/bridge.go:228-247 | The same for one storage slot, hydrated with that slot; its value: `PrestateRuns.StorageAgrees` and `PrestateRuns.HydrationAnswersStorage`. |
| PrestateBridge.Bridge.Code | sdk/engine/native/prestate/bridge.go:248-292 | Code is served from the store, or fetched after the account, at the reader's root, bound its hash, and kept only if it hashes to the requested hash; what it is: `PrestateRuns.CodeAgrees`. |
| PrestateBridge.Bridge.LoadWitness | sdk/engine/native/prestate/bridge.go:309-338 | A witness is loaded whole or not at all: only at the own checkpoint, before the state opens or is sealed, if every preimage hashes to its key and the sizes fit the budget. |
| PrestateBridge.Bridge.Commit | sdk/engine/native/prestate/bridge.go:339-350 | Committing needs an open state and returns a root only if no stop is latched. |
| PrestateBridge.Bridge.Seal | sdk/engine/native/prestate/bridge.go:351-370 | Sealing happens once and records nodes, codes and attempts as they are. |
| PrestateRuns.RunKeeps | sdk/engine/native/prestate/bridge.go:96-370 | In every sequence of calls from a new bridge: requests and bytes stay within budget, attempts are numbered 1 to requests, everything kept is content addressed and a sealed record equals the witness. |
| PrestateRuns.FatalFreezes | sdk/engine/native/prestate/bridge.go:96-124 | After a stop no further sequence of calls changes anything. |
| PrestateRuns.FirstStopStays | sdk/engine/native/prestate/bridge.go:96-103 | The stop a call latches is the one every continuation ends with. |
| PrestateRuns.SealedStays | sdk/engine/native/prestate/bridge.go:351-370 | After sealing, no sequence of calls changes nodes, codes, attempts or the sealed record. |
| PrestateRuns.AccountAgrees | sdk/engine/native/prestate/bridge.go:208-227 | After any sequence of reads, hydrations, witness loads and commits, an account read at any root, the checkpoint's or a committed one, is the account of every complete state at that root; a missing node never reads as absence. |
| PrestateRuns.StorageAgrees | sdk/engine/native/prestate/bridge.go:228-247 | The same for storage values at any root. |
| PrestateRuns.CodeAgrees | sdk/engine/native/prestate/bridge.go:248-292 | Code returned after any sequence of calls is the one preimage of the requested hash. |
| PrestateRuns.HydrationAnswersAccount | sdk/engine/native/prestate/bridge.go:208-227 | At the checkpoint root an account read of a running bridge succeeds exactly when the nodes are there or the one hydration it makes is accepted: the second-miss stop does not occur. |
| PrestateRuns.HydrationAnswersStorage | sdk/engine/native/prestate/bridge.go:228-247 | The same for a storage read. |
| PrestateRuns.AcceptedProofIsTrue | sdk/engine/native/prestate/proof.go:53-72 | The account fields claimed by an accepted proof are those of the complete state. |
| PrestateHonest.AcceptedExactly | sdk/engine/native/prestate/proof.go:53-115 | A proof is accepted if and only if it tells the truth about the complete state: its nodes include those on the way to the account, present or absent, its fields are the account's or the empty account's, and it proves each requested slot once with its value, with nodes unless the account has no storage. |
| PrestateHonest.AnswerIsHonest | sdk/engine/native/prestate/proof.go:53-115 | Every complete state has such an answer to every question without a repeated slot. |
| PrestateHonest.HonestSourceAnswersAccount | sdk/engine/native/prestate/bridge.go:156-227 | After any sequence of calls, a running bridge served by a truthful source reads an account exactly when its nodes are there or there is room for one exchange in budgets and time; it then returns what the complete state holds, absence included, and latches no stop. |
| PrestateHonest.HonestSourceAnswersStorage | sdk/engine/native/prestate/bridge.go:156-247 | The same for a storage slot. |
| PrestateHonest.HonestSourceAnswersCode | sdk/engine/native/prestate/bridge.go:248-292 | The same for code: it is read exactly when it is empty or stored, or the account is read and there is room for its bytes. |
| PrestateLedger.BytesAreCharged | sdk/engine/native/prestate/bridge.go:145-155 | In every run the bytes charged are the sum, call by call, of the responses that fit budgets and time, each in full or not at all, and of the witnesses loaded. |
| PrestateLedger.AttemptsAreTheQuestions | sdk/engine/native/prestate/bridge.go:125-144 | In every run the attempts record, in order, every question put to the source and no other, with its address and slots. |
| PrestateReplay.SealedWitnessReloads | sdk/engine/native/prestate/bridge.go:309-370 | What a run sealed loads into a new bridge of the same checkpoint exactly when it fits the byte budget, and is then its whole store. |
| PrestateReplay.ReplaysAccounts | sdk/engine/native/prestate/bridge.go:208-227 | A sealed witness is complete: every account that a run without commits read, before or after sealing, is read the same by a bridge that loaded it, without a request. |
| PrestateReplay.ReplaysStorage | sdk/engine/native/prestate/bridge.go:228-247 | The same for storage slots. |
| PrestateReplay.ReplaysCode | sdk/engine/native/prestate/bridge.go:248-292 | The same for code. |
| PrestateReplay.CommittedAccountReads | sdk/engine/native/prestate/bridge.go:339-350 | After a commit in any run, an account of the state it wrote, whose nodes are on disk or among those written, reads as it is in that state. |
| BlockLoop.BranchSession.Prepare | examples/robinhood-v4/native/branch.go:82-111 | The target message must be the pinned transaction with its original calldata; only there, in the counterfactual branch, the calldata is replaced and the intervention counted. |
| BlockLoop.BranchSession.Invalidate | examples/robinhood-v4/native/branch.go:151-169 | A refused message is tolerated if and only if the branch is counterfactual, the transaction is a user one, its error is classified, root, gas pool and used gas are as before, nothing was entered or executed and no BLOCKHASH is pending. |
| BlockLoop.BranchSession.Transact | examples/robinhood-v4/native/bridge.go:137-197 | One transaction on the state the earlier ones left, for any engine: the root is read from the state before and after, and result, record and intervention count are those of the specification. |
| BlockLoop.BranchSession.ProcessBlock | examples/robinhood-v4/native/bridge.go:106-208 | For any engine as a function of state and message, the transaction loop succeeds exactly when no arrival meets an obstacle on the state the earlier ones left; then every arrival has its one record, receipts, executions and logs are those of the transactions that ran, and the state is the last one's. Otherwise it stops at the first obstacle, with its code. |
| BlockLoop.RecordsAccount | examples/robinhood-v4/native/branch.go:139-169 | Records are numbered by arrival, the first begins at the root and gas the block was given and the last ends at the root of the state it leaves; pre-root and gas of each equal post-root and gas of the previous; an invalidated arrival changes neither, ran nothing and occurs only in the counterfactual branch. |
| BlockLoop.RecordsTellTheRun | examples/robinhood-v4/native/bridge.go:137-197 | Each record tells what its arrival was: the engine was given its state, gas and calldata (the transaction's own, but for the target of the counterfactual branch), it is a success exactly when it ran and a revert exactly when it ran and reverted, and it ends at the root and gas the engine left. |
| BlockLoop.OneRunUntilTheTarget | examples/robinhood-v4/native/branch.go:82-111 | Whatever the engine: if the actual branch gets through the first n arrivals and none of them has its calldata replaced, the counterfactual branch gets through them with the same records and stands on the same state. |
| BlockLoop.BranchesDifferFromTheTargetOn | examples/robinhood-v4/native/branch.go:88-97 | The two branches of one block, from one state with one engine, have equal records before the target; the target meets the same root and gas and differs in its calldata. In every other block, and when nothing is replaced, all records are equal. |
| BlockLoop.TargetRunsTheReplacement | examples/robinhood-v4/native/branch.go:82-111 | At the target both branches give the engine one state and one message but for the calldata: the original input in the one, the replacement in the other. |
| BlockLoop.InStepWithRecords | examples/robinhood-v4/native/bridge.go:199-207 | Receipts, executions and logs are in step, with strictly increasing indices, and are exactly the arrivals whose record is not an invalidation; the used gas is that after the last arrival. |
| BlockLoop.ActualRunsAll | examples/robinhood-v4/native/bridge.go:149-152 | In the actual branch nothing is invalidated: the j-th execution is the j-th transaction. |
| BlockSession.Reindex | examples/robinhood-v4/native/session.go:185-193 | The in-place loop gives each receipt and each of its logs the index of its own execution and changes nothing else. |
| BlockSession.FinishReceipts | examples/robinhood-v4/native/session.go:176-193 | After derivation and, in the counterfactual branch, re-indexing, every receipt and log carries hash and index of its own transaction in the block. |
| BlockSession.RunSession | examples/robinhood-v4/native/session.go:109-223 | A session succeeds if and only if the witness starts at the parent's root, no block meets an obstacle from where the previous ones left it (number, parent, root continuity, transactions, finalisation, commit) and the counterfactual branch intervenes exactly once; then there is one output per block. |
| BlockSession.SessionIsContinuous | examples/robinhood-v4/native/session.go:125-132 | The outputs of a session: block numbers follow without a gap, each block starts at the root the previous one committed, where its state and its first record begin, commits the root it finalises, and names as parent the block just produced (actual branch) or the recorded one (counterfactual). |
| BlockSession.SessionsAgreeUntilTheTarget | examples/robinhood-v4/native/session.go:109-223 | The sessions of the two branches over the same blocks have the same records up to the target, which meets the same root and gas and differs in its calldata. |
| Consent.WriteKeeps | sdk/rhook_alpha/cases/authority.py:27-43 | Completing a write keeps exclusive creation: no file is being written by two processes. |
| ConsentRuns.RunInv | sdk/rhook_alpha/cases/authority.py:13-44 | In every interleaving of issue, replay, result and run steps of any number of processes, with crashes anywhere, each file is saved at most once and every grant, consumption, intent and launch is justified by its predecessor. Which steps they come from: `ConsentOrigins`. |
| ConsentRuns.AtMostOneDispatch | sdk/rhook_alpha/cases/native.py:214-290 | A plan gets at most one grant, one consumption, one dispatch intent and one launch, over all interleavings. |
| ConsentRuns.ConsumptionInWindow | sdk/rhook_alpha/cases/authority.py:31-44 | A consumption follows a grant of the same binding and falls inside its begin and its end less 180 seconds; the window lasts 180 to 600 seconds. |
| ConsentOrigins.GrantIsIssued | sdk/rhook_alpha/cases/authority.py:13-28 | Every grant saved in any interleaving was issued by a step of the run with its binding and key; it begins at that step's time and ends 600 seconds on or at the authorization expiry the step was given, whichever comes first. |
| ConsentOrigins.ConsumptionIsAuthorized | sdk/rhook_alpha/cases/authority.py:31-44 | Every consumption was loaded by its own process, at its own time, for the binding and key with which its grant was issued before, at least 180 seconds before that authorization expires and before the 600 seconds are over. |
| ConsentProgress.DispatchCompletes | sdk/rhook_alpha/cases/native.py:214-336 | From any reachable world an undisturbed dispatch of a new plan into a new directory ends with a completed result if and only if it loads under the grant's key, not before the grant and 180 seconds before its end; otherwise nothing is consumed. |
| ConsentRuns.DispatchAfterConsumption | sdk/rhook_alpha/cases/native.py:224-289 | A dispatch intent follows the consumption of the same binding by the same process. |
| ConsentRuns.LaunchAfterDispatch | sdk/rhook_alpha/cases/native.py:288-291 | The worker is launched only after its intent is durable, for the same binding and by the same process. |
| ConsentRuns.CompletedResultIsSealed | sdk/rhook_alpha/cases/native.py:331-336 | A completed result appears only after its inventory is durable and after the launch it reports. |
| ConsentRuns.AtMostOneChild | sdk/rhook_alpha/execution.py:431-450 | The attempt marker lets at most one child be launched for an operation. |
| ConsentRuns.SavedStays | sdk/rhook_alpha/cases/authority.py:21-43 | A completed file keeps its content in every continuation of every run. |
| SessionIdentity.VariantIsNormalForm | sdk/rhook_alpha/session/hookr.py:122-167 | Deriving a variant from the parameters read off a derived variant returns that variant. |
| SessionIdentity.DerivedExactly | sdk/rhook_alpha/session/hookr.py:122-150 | Settings derive a variant if and only if they name nothing else, ask for a rate from 0 to 99 or the fee off or both, and name no other backend; the variant asks for just that, for the worker the settings select, with its items in kind order. |
| SessionIdentity.SortKeyInjective | sdk/rhook_alpha/session/hookr.py:170-174 | Under one header two derived variants have the same sort key exactly when they are the same variant. |
| SessionIdentity.SameIdSameHeader | sdk/rhook_alpha/session/core.py:83-96 | Two sources whose headers carry one session id are the same source and header, although the id leaves fields out. |
| SessionIdentity.RegisteredRecord | sdk/rhook_alpha/session/core.py:182-192 | The record written on registration passes the check made when it is loaded. |
| SessionIdentity.SameVariantSameRecord | sdk/rhook_alpha/session/core.py:182-187 | Within a session a variant id determines its record. |
| SessionStoreRuns.RunInv | sdk/rhook_alpha/session/core.py:99-233 | In every interleaving of creators, openers and registrars with a crash after any filesystem step, a directory with a session or variant id holds a complete record that re-derives that id. |
| SessionStoreRuns.RecordsStay | sdk/rhook_alpha/session/core.py:120-137 | Sources, manifests and variant records placed once are the same in every continuation. |
| SessionStoreOrigins.SessionIsCreated | sdk/rhook_alpha/session/core.py:99-138 | In every interleaving each session was created by a step that named its source by digest and declared the checkpoint the source has. |
| SessionStoreOrigins.VariantIsAskedFor | sdk/rhook_alpha/session/core.py:189-213 | In every interleaving each variant of a session was asked for, of that session, by settings that derive it. |
| SessionStoreOrigins.AnswersAreAskedFor | sdk/rhook_alpha/session/core.py:99-213 | A process that opened a session supplied its source, and one that registered a variant supplied settings that derive it. |
| SessionStoreProgress.CreationOpens | sdk/rhook_alpha/session/core.py:99-138 | From any reachable world an undisturbed creation opens its session if and only if the source has the digest and declares the checkpoint given. |
| SessionStoreProgress.RegistrationEnds | sdk/rhook_alpha/session/core.py:189-213 | From any reachable world an undisturbed registration ends with the record its settings derive if and only if the session exists, they derive a variant and it is registered or fewer than eight are. |
| SessionStoreRuns.SameHeaderForAll | sdk/rhook_alpha/session/core.py:109-138 | All processes that created or opened one session id hold the same header, and the stored source derives it. |
| SessionStoreRuns.NothingDrifts | sdk/rhook_alpha/session/core.py:141-170 | In every run each listed session opens and each listed variant loads as its stored record: the drift errors do not occur. |
| SessionStoreLimit.LimitExactly | sdk/rhook_alpha/session/core.py:189-205 | The variant limit, exactly: from any reachable world every continuation without a new count keeps eight variants per session if and only if, for every session, the variants listed and the records that registrars past their count can still place are at most eight together. |
| SessionStoreLimit.NineVariants | sdk/rhook_alpha/session/core.py:189-205 | The limit fails: for every source that loads there is a run from the empty store that leaves a session with nine variants. |
| SessionStoreRuns.SerialRunsLimited | sdk/rhook_alpha/session/core.py:197-205 | A sufficient discipline: if registrations never overlap, no session ever holds more than eight variants. |
| SessionStoreRace.BothPassTheCount | sdk/rhook_alpha/session/core.py:194-202 | From any session with room, two idle processes registering different variants can both pass the count before either renames. |
| SessionStoreRace.OverlapExceedsLimit | sdk/rhook_alpha/session/core.py:197-205 | From any world with seven variants, two processes that both counted for different unlisted variants leave nine. |
| SessionVerification.Session.VerifySelected | sdk/rhook_alpha/session/core.py:289-328 | Verification, with its search for the owner of a foreign run, returns and stores what the specification says; only the verification records can change. Which label a record gets: `SessionEvidence.LabelsExactly`. |
| SessionVerification.Session.CompareVerified | sdk/rhook_alpha/session/core.py:348-371 | The comparison never fails on a reachable session and returns the verified variants sorted by key under the weakest label: verified exactly when there is one and all are recorded runs. |
| SessionVerification.RunInv | sdk/rhook_alpha/session/core.py:289-346 | In every sequence of operations verified variants are registered and prepared, and the run they record carries the commitments of that preparation. |
| SessionVerification.FirstVerificationStays | sdk/rhook_alpha/session/core.py:308-313 | A stored verification is never replaced, removed or upgraded by any sequence of operations. |
| SessionEvidence.LabelsExactly | sdk/rhook_alpha/session/core.py:289-328 | In every sequence of operations a variant is verified if and only if an admitted verification was bound to its prepared input; its record has run and comparison of the first such one, and says recorded run exactly when that one was not test-only. |
| SessionEvidence.EvidenceExactly | sdk/rhook_alpha/session/core.py:348-371 | A comparison is evidence if and only if some variant is verified and each verified one was verified first by a run that was not test-only. |
| SessionEvidence.VariantsExactly | sdk/rhook_alpha/session/core.py:189-213 | A variant is known if and only if some operation registered it. |
| SessionEvidence.PreparedExactly | sdk/rhook_alpha/session/core.py:243-259 | A variant is prepared if and only if some operation prepared it after it was registered, with the input of the first that did. |
| SessionEvidence.OwnerExactly | sdk/rhook_alpha/session/core.py:298-304 | A run with another scenario is blamed on the first other variant, in id order, that was prepared as that scenario, and on none only if there is none. |
| SessionVerification.TestOnlyIsForever | sdk/rhook_alpha/session/core.py:363-368 | A comparison that is not evidence stays so in every continuation. |
| SessionVerification.RowsAreTheVerified | sdk/rhook_alpha/session/core.py:350-362 | The rows are the verified variants, each exactly once with its own record, in the order of the sort keys. |
| SessionEvidence.RowsInOrder | sdk/rhook_alpha/session/hookr.py:169-174 | The rows list rate variants first, by rate, then the fee variant, then combined ones by rate and fee. |
| SessionHandoff.CheckVariants | sdk/rhook_alpha/session/handoff.py:195-223 | Accepts exactly the lists of at most eight derived, distinct records in canonical order, and returns those records. |
| SessionHandoff.Authenticate | sdk/rhook_alpha/session/handoff.py:122-192 | Succeeds exactly when the pin, if given, is the manifest's and the package is authentic: header derives its id, files are the pinned source, which derives the header, and the variants are accepted. |
| SessionHandoffFacts.ExportExactly | sdk/rhook_alpha/session/handoff.py:67-111 | A session exports if and only if its source derives its header and each variant derives under its own id; the package then has every variant once, with the input it was prepared with, and names and claims what it includes. |
| SessionPackages.AuthenticIsExport | sdk/rhook_alpha/session/handoff.py:122-223 | The converse of the acceptance of exports: every package accepted with its source is the export of the session it tells of, which has at most eight variants. |
| SessionHandoff.HomeStore.StageAndPlace | sdk/rhook_alpha/session/handoff.py:324-352 | A new session appears whole, with all its variants, and no other session changes. |
| SessionHandoff.HomeStore.FindConflict | sdk/rhook_alpha/session/handoff.py:277-281 | A conflict is reported exactly when some stored counterpart differs from the package or does not load. |
| SessionHandoff.HomeStore.Import | sdk/rhook_alpha/session/handoff.py:250-286 | Import succeeds exactly for a pinned authentic package that merges within the limit and without conflict; then the home is the merge, otherwise it is unchanged. |
| SessionHandoffFacts.ExportIsAuthentic | sdk/rhook_alpha/session/handoff.py:67-111 | An exported package, with or without source, is authentic if and only if the session holds at most eight variants. |
| SessionHandoffFacts.RoundTrip | sdk/rhook_alpha/session/handoff.py:67-286 | Importing a package exported with source into any home without the session adds exactly that session: header, source and variants. |
| SessionHandoffFacts.ImportMerges | sdk/rhook_alpha/session/handoff.py:270-286 | Importing into a home that has the session keeps header, source and every old variant, adds exactly the package's, stays within the limit and touches no other session. |
| SessionHandoffFacts.SameSource | sdk/rhook_alpha/session/handoff.py:270-271 | An existing session that accepts the package already holds the package's source. |
| SessionHandoffFacts.ImportIsIdempotent | sdk/rhook_alpha/session/handoff.py:250-286 | A package that was imported can be imported again, and that changes nothing. |

## Left out

- Descriptor text checks: patterns and lengths of names, units, sources and decimals, the exact key sets of the records, chain, action, setup, measures, witness and provenance constants; they restate literals.
- Pool id, ERC-7201 slots and the manifest commitment are not recomputed: Keccak and SHA-256 are not modelled, slots and hashes are data.
- Hash functions are parameters, assumed injective only where a lemma says so; the commitment of prepared inputs is an arbitrary function; an HMAC is the key it was made with.
- Profile catalogue, review admission and `authenticate(d, reader)`: loading and identity checks before composition.
- The Go mirror of the descriptor engine and the profile-overlay marker of its workers are not part of this model.
- Lists of items other than JSON arrays of objects with kind and parameters are modelled by one shape error.
- Validator.Validate: the first faulty section decides the error, under the section's own code; that an empty list is a schema error and a predicate or operand fault within a kind a predicate error is not told apart.
- Errors of `build_spec` outside `validate_spec` (a checkpoint that is no object or has no state root) are one binding error.
- Prepared inputs with infinite or not-a-number floats: their commitment fails before any comparison. A float is its text and its exact value.
- JsonReading.ParseExactly: the grammar has integers only. JSON text: floats, lone surrogate escapes, the digit limit of integer conversion and UTF-8 decoding; characters are Dafny's, text is already decoded.
- PackedWords.DecodeStorage: does not model the vendor ABI round trip that closes the decoder or the checksum text of addresses.
- PackedWords.PlanWord: does not model the vendor's `checkRulesConfig` of the planned configuration.
- PackedWords.ValidExactly: the comparison of the intervention's identity fields is one boolean.
- PackedWords.CheckedLPReplacement: the StateDB write, code check and branch run of `applyLPOverlay` are not modelled.
- Resources.RuntimeGuard.Poll: sensor process, files and the sleep are a parameter that gives a sample or fails; quotients by 1e9 are exact, not rounded.
- Merkle-Patricia nodes and RLP: a codec with an injective hash gives each node's kind; walking, proving and metadata checks are modelled, encodings are not.
- PrestateHonest.AcceptedExactly: balances are taken to be 256-bit numbers, as the account encoding makes them.
- PrestateBridge.Bridge.Request: the per-request deadline is a flag of the source's answer; locks are not modelled, calls are sequential as the fetch lock makes them.
- PrestateBridge.Bridge.Hydrate: a marshal failure of the answer is not modelled.
- PrestateBridge.Bridge.Commit: the trie update is a parameter that names the nodes it writes or fails; nodes written before it fails are not kept.
- EVM and Nitro execution: the engine is a parameter, any function of the state and the message that gives the state it leaves with its gas, logs and trace counts; it is deterministic and keeps nothing outside the state. Finalising and committing a state, and the state opened on the committed root, are such a function too; reopening does not fail.
- BlockLoop.BranchSession.ProcessBlock: records are values, so aliasing of the current map with earlier records, semantic slots, call lists, hash queries and the host command dialogue at boundaries are not modelled; `original` mode runs the foreign processor.
- BlockSession.FinishReceipts: derivation sets transaction hash and index; fees, bloom and block hash of receipts are not modelled.
- Signals, timers, power and host admission, process groups, cleanup and sensors: each is a step that may or may not succeed.
- ConsentRuns.CompletedResultIsSealed: the fields of a native completion, the verifier, and the linking and completion rule of `run` are one recorded outcome; the copy of a failed result in the consent directory is not modelled.
- Symlink, permission, ownership and file-size checks, fsync failures and partial removal of a staging directory (removal is one step).
- SessionStoreRuns.SerialRunsLimited: sufficient only; the exact condition is `SessionStoreLimit.LimitExactly`.
- Session record self-commitments, coverage records, preparation files and comparison views: a record is its content, a preparation is its two commitments, and loading is re-derivation.
- SessionHandoff.HomeStore.StageAndPlace: staging and the rename succeed; failures and a rival importer are not modelled.
- SessionHandoff.HomeStore.Import: one importer at a time, without `prepare`; the comparison with the exporter's preparation comes after the import and changes no session.
- SessionHandoff.Authenticate: claims, capabilities and assurance of a manifest are the literals of its mode, and the mode is whether source is included.
- Build tools, installers, archive extraction, command line, rendering and example scripts: input and output with easy claims only.
