# Request permission store and extension description, in Dafny

This project models two parts of the Lobo browser.

The first is the **request permission store** (`org.lobobrowser.security`). It keeps one row of decisions per (frame host, request host) pair. Each decision is `Undecided`, `Allow` or `Deny`. Slot 0 of a row holds the global decision and slot k+1 the decision for request kind k. There are two backends:

- `DBRequestRuleStore` keeps each row packed into one 32-bit integer in the user database, two bits per slot. A flag in the database guards the bootstrap.
- `InMemoryRequestRuleStore` keeps a nested map `frameHost -> requestHost -> Permission[]` whose arrays it overwrites in place.

Both run the interface's `initStore` on construction. It writes global `Deny`, `Allow` for images and `Allow` for style sheets under the key `("*", "")`.

The second is **`ExtensionDescriptionFile`** (`com.lobobrowser.extension`). It validates and normalises an extension's description, read from an already-parsed YAML mapping. It can also write the description back as a mapping.

Files:

- `wrappers.dfy`: `Option` and `Result`.
- `permission.dfy`: the decision type, the request kinds and the slot numbering.
- `bit_codec.dfy`: the packed 32-bit row codec, with slot isolation proved at the bit level.
- `rule_store.dfy`: the abstract view both backends refine, the `storePermissions`/`getPermissions` contract, and `initStore`.
- `db_rule_store.dfy`: the database backend. The database is a mutable object holding the table and the flag.
- `in_memory_rule_store.dfy`: the in-memory backend, with its arrays as `array`s.
- `extension_description.dfy`: the description's value model, the load and save specifications, and the class with its loops.

Where the code and its documented intent differ, the model follows the code:

- Storing `Undecided` is a real write. The database backend clears the slot to `00` (the block mask clears it and the set mask is 0), and the in-memory backend writes `Undecided` into the array. It is not a no-op.
- For a key it does not hold, the in-memory `getPermissions` returns the shared default array itself, not a copy. That array is `numKinds()+1` long, not `numKinds()`.
- The database constructor sets `permissionsInitialized` on a fetched record that it never stores. The flag in the database therefore stays false, and every later store built on the same database runs `initStore` again (`BootstrapFlagNotPersisted`). This undoes user decisions. A global, image or CSS decision a user stores at `("*", "")` holds only until the next store is built on that database, which puts it back to `Deny`, `Allow` and `Allow`. Decisions in the other slots survive (`BootstrapOverwritesUserDecision`).
- `initStore`'s `assert` that the bootstrap global decision is undecided is a Java assertion. It is checked only with `-ea`, so the model does not make it a precondition. After one `initStore` it is false (`InitStoreDecidesBootstrap`), and running the writes again changes nothing (`InitStoreIdempotent`).
- The forbidden-namespace check on `main` compares against the literal prefix `org.cobraparser.*`, asterisk included. A main class in `org.cobraparser` is accepted (`CobraNamespaceLiteral`).
- `saveMap` never writes `loadbefore`, so a save followed by a load drops it (`SaveThenLoad`).
- `saveMap` dereferences `authors`. On a file made by the 3-argument constructor, where `authors` is still null, it throws (`ConstructedCannotBeSaved`).

## Model

| member | source | states |
|---|---|---|
| Permissions.SlotOf | src/main/java/org/lobobrowser/security/InMemoryRequestRuleStore.java:48 | no kind selects slot 0; kind k selects slot k+1 |
| Permissions.UndecidedArray | src/main/java/org/lobobrowser/security/DBRequestRuleStore.java:19-24 | the static default array is a fresh array of the given length, all `Undecided` |
| BitCodec.DecodeBits | src/main/java/org/lobobrowser/security/DBRequestRuleStore.java:72-79 | a field decodes to `Undecided` iff its high bit is clear, to `Allow` iff both bits are set, to `Deny` iff only the high bit is set; every bit pattern decodes |
| BitCodec.MakeBitBlockMask | src/main/java/org/lobobrowser/security/DBRequestRuleStore.java:112-115 | exactly the bits outside the targeted field are set |
| BitCodec.MakeBitSetMask | src/main/java/org/lobobrowser/security/DBRequestRuleStore.java:102-110 | only bits inside the targeted field are set, and the field decodes to the stored permission |
| BitCodec.SetMaskZero | src/main/java/org/lobobrowser/security/DBRequestRuleStore.java:103-109 | the set mask is 0 exactly when the permission is undecided |
| BitCodec.DecodeRow | src/main/java/org/lobobrowser/security/DBRequestRuleStore.java:61-68 | a packed value has `numKinds()+1` slots, slot i decoded from field i |
| BitCodec.ReplaceSlotIsolation | src/main/java/org/lobobrowser/security/DBRequestRuleStore.java:96 | the read-modify-write keeps every bit outside the field, makes the field decode to the stored permission, and writes `00` for `Undecided` |
| BitCodec.ReplaceSlot | src/main/java/org/lobobrowser/security/DBRequestRuleStore.java:96 | the read-modify-write: the existing row masked by `makeBitBlockMask`, then OR-ed with `makeBitSetMask`; what it means is stated by `ReplaceSlotIsolation` and `DecodeReplaceSlot` |
| BitCodec.DecodeReplaceSlot | src/main/java/org/lobobrowser/security/DBRequestRuleStore.java:94-98 | row-wise: the rewritten row decodes to the old row with exactly that slot replaced |
| BitCodec.DecodeSetMask | src/main/java/org/lobobrowser/security/DBRequestRuleStore.java:87-92 | a new row holding just the set mask decodes to all `Undecided` except the written slot |
| BitCodec.DecodeZero | src/main/java/org/lobobrowser/security/DBRequestRuleStore.java:72-79 | the value 0 decodes to all `Undecided` |
| RuleStore.Store | src/main/java/org/lobobrowser/security/RequestRuleStore.java:11 | a store keeps rows well formed and adds exactly the written key |
| RuleStore.StoreDecision | src/main/java/org/lobobrowser/security/RequestRuleStore.java:11 | read after write for every key and slot: only the targeted slot of the targeted key changes, to the written permission, `Undecided` included |
| RuleStore.Lookup | src/main/java/org/lobobrowser/security/RequestRuleStore.java:9 | the global decision and one decision per kind, each the stored slot, or `Undecided` for a key never stored |
| RuleStore.InitStore | src/main/java/org/lobobrowser/security/RequestRuleStore.java:19-25 | the three bootstrap writes keep rows well formed and add only the bootstrap key |
| RuleStore.InitStoreDecision | src/main/java/org/lobobrowser/security/RequestRuleStore.java:22-24 | after the writes: global `Deny`, image and CSS `Allow` at `("*", "")`; every other slot and key as before |
| RuleStore.InitStoreFrame | src/main/java/org/lobobrowser/security/RequestRuleStore.java:19-25 | no key other than the bootstrap key is added or changed |
| RuleStore.InitStoreFreshBootstrap | src/main/java/org/lobobrowser/security/RequestRuleStore.java:19-25 | on a store without the bootstrap row, getPermissions then gives `Deny` globally and exactly image and CSS `Allow` |
| RuleStore.InitStoreDecidesBootstrap | src/main/java/org/lobobrowser/security/RequestRuleStore.java:20-22 | afterwards the bootstrap global decision is decided, so the assertion fails on a second run |
| RuleStore.InitStoreIdempotent | src/main/java/org/lobobrowser/security/RequestRuleStore.java:22-24 | running the three writes twice gives the same rules as running them once |
| DBRuleStore.Decoded | src/main/java/org/lobobrowser/security/DBRequestRuleStore.java:46-59 | the table's meaning: the same keys, each packed row decoded slot by slot |
| DBRuleStore.UserDB.constructor | src/main/java/org/lobobrowser/security/DBRequestRuleStore.java:36-38 | the part of the user database the store uses: the PERMISSIONS table, keyed by (frame host, request host), and the GLOBALS `permissionsInitialized` flag |
| DBRuleStore.StoredBits | src/main/java/org/lobobrowser/security/DBRequestRuleStore.java:89-98 | the packed row left at the key decodes to the old row (all `Undecided` for a new key) with the one written slot replaced |
| DBRuleStore.StoredBitsRefines | src/main/java/org/lobobrowser/security/DBRequestRuleStore.java:81-100 | decoding after the packed write equals the abstract store applied to the decoding before it, for new and existing rows |
| DBRuleStore.DecodeBitMask | src/main/java/org/lobobrowser/security/DBRequestRuleStore.java:61-68 | a fresh array of `numKinds()` decisions; with the global decision it is the decoded row |
| DBRuleStore.DBRequestRuleStore.constructor | src/main/java/org/lobobrowser/security/DBRequestRuleStore.java:33-40 | runs initStore exactly when the database flag is false; the flag itself is left unchanged |
| DBRuleStore.DBRequestRuleStore.GetPermissions | src/main/java/org/lobobrowser/security/DBRequestRuleStore.java:46-59 | returns the contract's lookup on the decoded table; a missing row gives the shared default array, a present one a fresh decoding |
| DBRuleStore.DBRequestRuleStore.StorePermissions | src/main/java/org/lobobrowser/security/DBRequestRuleStore.java:81-100 | inserts the set mask or rewrites the old row; the decoded rules change exactly as the contract's store says |
| DBRuleStore.DBRequestRuleStore.InitStore | src/main/java/org/lobobrowser/security/RequestRuleStore.java:19-25 | the decoded rules become the abstract initStore of the old rules |
| DBRuleStore.BootstrapFlagNotPersisted | src/main/java/org/lobobrowser/security/DBRequestRuleStore.java:36-38 | after a first store bootstraps, the flag still reads false; a second store built straight after the first re-runs initStore on a decided bootstrap row, and the rules stay as the first store left them |
| DBRuleStore.BootstrapOverwritesUserDecision | src/main/java/org/lobobrowser/security/DBRequestRuleStore.java:36-38 | a decision the user writes at `("*", "")` is read back as written, but after a second store is built on the same database the slot reads `Deny` for the global decision, `Allow` for images and CSS, and the user's decision for every other kind |
| InMemoryRuleStore.CopyOfRange | src/main/java/org/lobobrowser/security/InMemoryRequestRuleStore.java:37 | a fresh array holding the source range |
| InMemoryRuleStore.InMemoryRequestRuleStore.constructor | src/main/java/org/lobobrowser/security/InMemoryRequestRuleStore.java:28-30 | the rules are the abstract initStore of the empty store |
| InMemoryRuleStore.InMemoryRequestRuleStore.GetPermissions | src/main/java/org/lobobrowser/security/InMemoryRequestRuleStore.java:32-44 | a stored key gives slot 0 and a fresh copy of the rest, as the contract's lookup; otherwise `Undecided` with the shared default array, `numKinds()+1` long |
| InMemoryRuleStore.InMemoryRequestRuleStore.AddPermission | src/main/java/org/lobobrowser/security/InMemoryRequestRuleStore.java:64-69 | the inner map gains a fresh copy of the defaults with one cell set, under the request host |
| InMemoryRuleStore.InMemoryRequestRuleStore.StorePermissions | src/main/java/org/lobobrowser/security/InMemoryRequestRuleStore.java:46-62 | the rules change exactly as the contract's store says; an existing array is written in place with the maps unchanged; otherwise one fresh array is added under the key |
| InMemoryRuleStore.InMemoryRequestRuleStore.WriteInPlace | src/main/java/org/lobobrowser/security/InMemoryRequestRuleStore.java:53 | writing one cell of a stored array changes that key's rules only, by the contract's store, and keeps the invariant |
| InMemoryRuleStore.InMemoryRequestRuleStore.AddNew | src/main/java/org/lobobrowser/security/InMemoryRequestRuleStore.java:54-61 | a fresh array goes into the frame host's inner map, or into a new inner map; the rules change by the contract's store |
| InMemoryRuleStore.InMemoryRequestRuleStore.PutRequestHostMap | src/main/java/org/lobobrowser/security/InMemoryRequestRuleStore.java:55-68 | installing the frame host's updated inner map (the existing one after `reqHostMap.put`, or the new one after `store.put`) adds exactly the new row and keeps the invariant |
| InMemoryRuleStore.InMemoryRequestRuleStore.InitStore | src/main/java/org/lobobrowser/security/RequestRuleStore.java:19-25 | the rules become the abstract initStore of the old rules |
| InMemoryRuleStore.ConstructedBootstrap | src/main/java/org/lobobrowser/security/InMemoryRequestRuleStore.java:28-30 | after construction, `getPermissions("*", "")` gives `Deny` globally and exactly image and CSS `Allow` |
| ExtensionDescription.ValidName | src/main/java/com/lobobrowser/extension/ExtensionDescriptionFile.java:344 | the regular expression `^[A-Za-z0-9 _.-]+$`: at least one character, each a letter, digit, space, `_`, `.` or `-` |
| ExtensionDescription.ForbiddenMain | src/main/java/com/lobobrowser/extension/ExtensionDescriptionFile.java:365 | main starts with `com.lobobrowser.` or with the literal `org.cobraparser.*` |
| ExtensionDescription.Underscored | src/main/java/com/lobobrowser/extension/ExtensionDescriptionFile.java:348 | same length, each space becomes `_` and every other character is kept; no spaces remain, and a valid name stays valid |
| ExtensionDescription.UnderscoredFixes | src/main/java/com/lobobrowser/extension/ExtensionDescriptionFile.java:348 | a name without spaces is unchanged |
| ExtensionDescription.CobraNamespaceLiteral | src/main/java/com/lobobrowser/extension/ExtensionDescriptionFile.java:365 | `org.cobraparser.Main` passes the namespace check; `org.cobraparser.*Main` and `com.lobobrowser.Main` do not |
| ExtensionDescription.PluginNameList | src/main/java/com/lobobrowser/extension/ExtensionDescriptionFile.java:426-443 | no value gives `[]`; a non-list is wrong type; a null element is invalid format; otherwise one space-free entry per element, in order |
| ExtensionDescription.AuthorList | src/main/java/com/lobobrowser/extension/ExtensionDescriptionFile.java:382-401 | `author` first, then the `authors` elements; only `author` gives one entry; neither gives none; a non-list and a null element give their errors |
| ExtensionDescription.Lists | src/main/java/com/lobobrowser/extension/ExtensionDescriptionFile.java:374-376 | depend, softdepend and loadbefore read in that order; the first failing list names the error; a success holds the three lists |
| ExtensionDescription.Header | src/main/java/com/lobobrowser/extension/ExtensionDescriptionFile.java:340-372 | the first failing check names the error: a missing name, an invalid name, a missing version, a missing main, or a forbidden main; a map passing every check succeeds, and success means name, version and main are present, and the name is valid and space-free |
| ExtensionDescription.Parse | src/main/java/com/lobobrowser/extension/ExtensionDescriptionFile.java:340-424 | the first failing stage names the error: header, then dependency lists, then authors, then a missing priority; a map passing every stage succeeds; a success is well formed, agrees with the header, lists and authors readings, and holds the description (when present) and the priority as their `toString` |
| ExtensionDescription.SaveLayout | src/main/java/com/lobobrowser/extension/ExtensionDescriptionFile.java:445-472 | fails exactly when authors is null; always writes name, main, version, priority, depend and softdepend; description only when set; `author` for one author, `authors` for more; never `loadbefore` |
| ExtensionDescription.PluginNameListOfSaved | src/main/java/com/lobobrowser/extension/ExtensionDescriptionFile.java:453-455 | a saved space-free dependency list reads back unchanged |
| ExtensionDescription.AuthorListOfSaved | src/main/java/com/lobobrowser/extension/ExtensionDescriptionFile.java:465-469 | saved authors read back unchanged |
| ExtensionDescription.HeaderOfSaved | src/main/java/com/lobobrowser/extension/ExtensionDescriptionFile.java:448-450 | a saved name, main and version read back unchanged |
| ExtensionDescription.ListsOfSaved | src/main/java/com/lobobrowser/extension/ExtensionDescriptionFile.java:453-459 | saved dependency lists read back unchanged, with no loadbefore |
| ExtensionDescription.SaveThenLoad | src/main/java/com/lobobrowser/extension/ExtensionDescriptionFile.java:445-472 | loading a saved, well-formed description gives it back, except that loadbefore is empty |
| ExtensionDescription.LoadSaveLoad | src/main/java/com/lobobrowser/extension/ExtensionDescriptionFile.java:340-472 | whatever loads survives a save and a second load, loadbefore aside |
| ExtensionDescription.FullNameOf | src/main/java/com/lobobrowser/extension/ExtensionDescriptionFile.java:327-329 | the name, then `" v"`, then the version (or `"null"`) |
| ExtensionDescription.FullNameInjective | src/main/java/com/lobobrowser/extension/ExtensionDescriptionFile.java:327-329 | for space-free names, the full name determines the name and the version's text (a null version and the string `"null"` print alike) |
| ExtensionDescription.ConstructedCannotBeSaved | src/main/java/com/lobobrowser/extension/ExtensionDescriptionFile.java:465 | a file made by the 3-argument constructor still has null authors, so saveMap throws at `authors.size()` |
| ExtensionDescription.ConstructedFullName | src/main/java/com/lobobrowser/extension/ExtensionDescriptionFile.java:327-329 | getFullName of a file made by the 3-argument constructor is the name with its spaces replaced, `" v"`, and the version, or `"null"` when none was given |
| ExtensionDescription.ExtensionDescriptionFile.Blank | src/main/java/com/lobobrowser/extension/ExtensionDescriptionFile.java:84-93 | the field initialisers: every field null, every dependency list empty |
| ExtensionDescription.ExtensionDescriptionFile.constructor | src/main/java/com/lobobrowser/extension/ExtensionDescriptionFile.java:117-121 | the name with its spaces replaced, version and main as given (each possibly null), the rest as initialised |
| ExtensionDescription.ExtensionDescriptionFile.Load | src/main/java/com/lobobrowser/extension/ExtensionDescriptionFile.java:106-108 | fails exactly as the load specification fails; on success a fresh file holding its result |
| ExtensionDescription.ExtensionDescriptionFile.MakePluginNameList | src/main/java/com/lobobrowser/extension/ExtensionDescriptionFile.java:426-443 | the loop computes the plugin-name-list specification |
| ExtensionDescription.ExtensionDescriptionFile.LoadMap | src/main/java/com/lobobrowser/extension/ExtensionDescriptionFile.java:340-424 | succeeds exactly when the load specification does, with its error; on success the fields are its result, and an absent description keeps the old one |
| ExtensionDescription.ExtensionDescriptionFile.LoadHeader | src/main/java/com/lobobrowser/extension/ExtensionDescriptionFile.java:340-372 | computes the header checks into name, version and main |
| ExtensionDescription.ExtensionDescriptionFile.LoadLists | src/main/java/com/lobobrowser/extension/ExtensionDescriptionFile.java:374-376 | computes the three dependency lists into their fields |
| ExtensionDescription.ExtensionDescriptionFile.LoadAuthors | src/main/java/com/lobobrowser/extension/ExtensionDescriptionFile.java:382-401 | computes the merged author list into authors |
| ExtensionDescription.ExtensionDescriptionFile.AppendStrings | src/main/java/com/lobobrowser/extension/ExtensionDescriptionFile.java:387-395 | the builder, then each element's string, or failure exactly when an element is null |
| ExtensionDescription.ExtensionDescriptionFile.FullName | src/main/java/com/lobobrowser/extension/ExtensionDescriptionFile.java:327-329 | getFullName of the current fields, whose shape `FullNameOf` states |
| ExtensionDescription.ExtensionDescriptionFile.SaveMap | src/main/java/com/lobobrowser/extension/ExtensionDescriptionFile.java:445-472 | the puts build exactly the save layout of the current fields |

## Left out

- Java's `synchronized`, `AccessController.doPrivileged` and the jOOQ/SQL layer are not modelled. The table is a map from the exact (frame host, request host) pair to its packed row, with at most one row per pair.
- `getInstance`, `RequestRuleStore.getStore`, the static `instance` fields and `InMemoryRequestRuleStore.dump` are not modelled. They are singleton wiring and logging.
- The precedence between a per-kind decision and the global decision is applied by callers outside these files, so it is not modelled.
- The `RequestKind` enumeration (`org.cobraparser.ua.UserAgentContext.RequestKind`) is not part of this model. Its size and the ordinals of `Image` and `CSS` are abstract constants with three constraints: there are at least two kinds, the packed row of `numKinds()+1` two-bit slots fits into 32 bits, and `Image` and `CSS` are different kinds.
- Java's static `defaultPermissions` arrays (DBRequestRuleStore.java:19, InMemoryRequestRuleStore.java:13) are shared by every instance of their class. Dafny has no mutable static state, so the model gives each store instance its own default array, made at construction. Within one instance the array's identity is kept: every `getPermissions` for an absent key returns that same array. Aliasing across instances is not captured.
- Callers writing into the default array are not modelled. The stores' invariant keeps that array all `Undecided`, and every operation requires the invariant, so the model rules such a write out. In Java, a caller writing into the array `getPermissions` returned for an absent key (DBRequestRuleStore.java:52, InMemoryRequestRuleStore.java:39 and :42) would change every later absent-key result. In the in-memory store it would also change the starting contents of every later new row, because `addPermission` copies the default array (InMemoryRequestRuleStore.java:66).
- The inner `HashMap`s of the in-memory store are values. Java mutates an existing inner map through `reqHostMap.put` (InMemoryRequestRuleStore.java:55, :68) and never calls `store.put` for it. The model builds the updated inner map and puts it back under the frame host. Since the inner maps never leave the store, the resulting contents are the same, but the model does not capture the in-place update of the inner map itself.
- A null `permissions` column value is not modelled.
- Parsing and dumping YAML, the `InputStream` constructor, `asMap`, `save(Writer)` and the getters are not modelled. The model starts from the parsed map, with values that are strings, lists, null or other scalars known by their `toString`.
- The `awareness` loop (ExtensionDescriptionFile.java:404-414) is not modelled. It casts list elements to `ExtensionAwareness`, which needs the YAML type tags. Its error is dropped with it (ExtensionDescriptionFile.java:410-411). `Parse` accepts a map whose `awareness` list Java rejects. On such a map that also lacks a priority, `Parse` reports `PriorityNotDefined` where Java reports the awareness error.
- The `ClassCastException` handlers for name, version, main and priority are not modelled. `toString()` cannot throw one, so those handlers are unreachable.
- ExtensionDescription.ExtensionDescriptionFile.LoadMap: says nothing about the fields after a failed load. The constructors then throw, so no caller sees them.
- ExtensionDescription.ExtensionDescriptionFile.constructor: takes a non-null name. A null name makes Java throw a `NullPointerException` in `replace` (ExtensionDescriptionFile.java:118), and the model has no exception path for constructors. Version and main may be null, as in Java.
