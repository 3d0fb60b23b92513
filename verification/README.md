# A verified model of PSDToolKit

PSDToolKit lets a video editor show Photoshop documents whose layers are switched per object.  A C
plugin talks over two pipes to a Go server that holds the documents, their layer states and their
favourites, and renders them; a Lua script and two smaller C parts complete it.  This project
models the parts whose behaviour is hard to see from any one function and proves what they promise.

- **Layer trees** (`LayerTables`, `LayerBuild`, `LayerWellFormed`, `LayerPaths`, `LayerPlaces`,
  `LayerPairs`, `LayerClash`, `LayerSyncs`): the lookup tables, full paths, mirror pairs and synced
  layers that construction derives from a tree of names.
- **Layer states** (`LayerStates`, `LayerCopy`, `LayerFlips`, `LayerGroups`, `LayerNormal`,
  `LayerExclusive`, `LayerCommands`, `LayerHistory`, `LayerImage`, `LayerRegular`,
  `LayerConstruct`, `LayerShared`): the state machine of forced layers, radio groups and mirror pairs, from
  construction on.  Go's map iteration is a free choice of order.
- **Saved states** (`Packbits`, `Base64Url`, `BitCodec`, `Names`, `Prop`): the codecs that states pass
  through, and `DrawCache`, whose keys rest on them.
- **Favourites** (`FavouriteTree`, `FavouriteStates`): the tree behind favourites paths.
- **Plugin and server** (`IpcWire`, `IpcRoundTrip`, `IpcStreams`, `IpcHandoff`, `IpcReaders`): the byte
  protocol, and the hand-off between threads as machines whose processes step in any order.
- **Bit reversal** (`Powers`, `BitReversal`): table and in-place permutation of the FFT, for any element type.
- **JSON** (`Json`, `JsonRoundTrip`, `JsonLoops`): the printer and the parser of `json.lua`.
- **Lua strings** (`LuaString`, `LuaRewrite`): the rewriting done by the send button.
- **Audio handles** (`SpeakPool`, `Speak`): the pool of eight handles.

Code that changes things in place is a class or a method over arrays here, proved against a
specification function; the promises are lemmas about those functions.  Bytes of strings are
characters, indices start at 0, and C and Go integers are unbounded except where the source relies
on their width: there the wrap-around is written out (`int8` lengths, `uint32` words, byte shifts).

Where the code does not keep what its name or its callers suggest, the model keeps the code and a
lemma says when exactly the promise holds:

- `speak.c` reads a newly opened file from slot 0, whichever slot it was put in
  (`SpeakPool.ReadUsesOwnHandle`, `SpeakPool.SecondFileReadsFirst`).
- A Lua value that ends in a backslash hides its closing quote, and a file that ends in `ptkl=` hides
  the state (`LuaRewrite.FindAssignAt`, `LuaRewrite.StateIsFirst`).
- A state command `v1.x` for a path of one byte that needs no escape is skipped
  (`LayerHistory.ShowLineWorks`).
- Full paths clash exactly when the labels of a sibling list do (`LayerClash.PathsDistinctIff`).
- A favourites root without a name is never found by its path (`FavouriteTree.FindNodeOfFullPath`).
- An error reply with an empty text looks like success, and where a payload is read the caller then
  waits for ever (`IpcRoundTrip.ErrorNeedsText`, `IpcHandoff.HandoffCompletes`).
- The server hands a reply of the plugin to whichever exporter waits for one.  `IpcReaders.RepliesCanStray`
  says exactly when a reply can reach the wrong one.  This program never gets there: its three exporters are
  called from the one loop of the window (`src/go/gui/gui.go:150`, `:155` and `:358`), and each waits for its
  reply before it returns (`IpcReaders.LoopKeepsReplies`).
- A text is changed by `prop.Encode` and `prop.Decode` exactly when a `%` that stays unescaped starts a
  complete escape in the encoded text (`Prop.PropRoundTrip`).
- `luastr_decode` leaves its buffer only for a text of one double quote (`LuaString.Decode`).

`dafny verify dfyconfig.toml` checks everything.

## Model

| member | source | states |
|---|---|---|
| Names.EncodeName | src/go/img/util.go:16-32 | the escaping loop computes `Escaped`, the function that the round-trip and path lemmas below are about |
| Names.NameRoundTrip | src/go/img/util.go:5-32 | decoding an escaped name gives the name back, whatever bytes it holds, `/` and `%` included |
| Names.EscapedIsClean | src/go/img/util.go:16-32 | an escaped name holds no separator of paths or states and no character that needs escaping other than `%` |
| Names.Itoa | src/go/img/util.go:34-50 | filling the 32-byte buffer from its end never leaves it for any 64-bit number and gives the decimal digits |
| Names.DecimalRoundTrip | src/go/img/util.go:34-50 | the digits of a natural number are digits and stand for that number |
| Packbits.Encode | src/go/img/internal/packbits/packbits.go:35-118 | what is encoded unpacks to the input for every byte slice, across the 127-byte run and 128-byte literal splits, and `3*len(out) <= 4*len(in) + 2` |
| Packbits.Decode | src/go/img/internal/packbits/packbits.go:5-33 | the decoding loop computes the specification `Unpacked`, failing exactly on a truncated block; a length byte of 128 wraps to a literal of 128 |
| Base64Url.Base64RoundTrip | src/go/img/serialize.go:30-44 | unpadded base64url (sections 3.2 and 5 of RFC 4648) is undone for every byte sequence |
| BitCodec.SerializeBits | src/go/img/serialize.go:13-36 | fails exactly above 65535 bits; otherwise the text saves the vector, meaning it decodes to the vector's length and packed bits |
| BitCodec.SavedIsRestored | src/go/img/serialize.go:46-74 | decoding a saved text over any vector of the same length restores exactly the saved one, including the last partial byte, which is stored unshifted |
| BitCodec.DeserializeBitsAsBool | src/go/img/serialize.go:46-74 | errors on text that does not decode, panics on fewer than two bytes, and otherwise fills as many flags as the header says |
| BitCodec.RoundTrip | src/go/img/serialize.go:13-74 | `deserializeBitsAsBool` after `serializeBits` gives the vector back, for every length up to 65535 |
| BitCodec.SavesInjective | src/go/img/serialize.go:13-36 | two vectors saved as the same text are equal |
| Prop.EscapeRune | src/go/img/prop/prop.go:36-46 | appends `%`, a length letter and the base64 of the rune's bytes, lowest first |
| Prop.Encode | src/go/img/prop/prop.go:48-73 | the loop escapes the backslash, the listed characters whose second Shift_JIS byte is a backslash, and every rune outside Shift_JIS |
| Prop.Unescape | src/go/img/prop/prop.go:94-132 | the scanning loop computes the function that the round trip is about |
| Prop.PropRoundTrip | src/go/img/prop/prop.go:36-149 | for every non-empty text, whichever runes Shift_JIS can encode: decoding undoes encoding if and only if no kept `%` starts a complete escape (letter and enough base64) in the encoded text |
| Prop.PathRoundTrip | src/go/img/prop/prop.go:48-149 | the round trip holds for every text whose `%` signs are followed by hexadecimal digits |
| Prop.JoinedNamesArePathLike | src/go/img/util.go:16-32 | escaped names joined by any separator but `%` are such texts |
| Prop.SliderStateRoundTrip | src/go/img/layermgr.go:390-404 | a slider's path and item joined by `~` survive encoding and split into the two again |
| Prop.UnsafePercentIsLost | src/go/img/prop/prop.go:94-132 | every text that holds `%y`, both kept by Shift_JIS, comes back changed, whatever stands around it |
| Prop.OpenPercentSurvives | src/go/img/prop/prop.go:94-132 | an escape left open does no harm: `%x` at the end of a text comes back |
| LayerBuild.TableBuilder.AddRow | src/go/img/layermgr.go:239-264 | one row is appended and the lookup maps stay those of the rows |
| LayerBuild.TableBuilder.EnumChildren | src/go/img/layermgr.go:239-278 | appends the rows of a subtree in document order, its radio groups and its flip pairs, and gives the number among equal names; `LayerWellFormed` and `LayerPairs` say what these are |
| LayerBuild.TableBuilder.RegisterFlips | src/go/img/layermgr.go:191-237 | the pair is entered for every flip suffix at the end of the name, if a sibling carries the rest of the name; `LayerPairs.BuiltPairs` says which pairs the maps end with |
| LayerPairs.BuiltPairs | src/go/img/layermgr.go:191-278 | for every tree with distinct sequence numbers and every suffix, the pairs in that suffix's map are exactly those that some place of the tree makes: a layer whose name ends in the suffix among others, and its first sibling that carries the rest of the name |
| LayerPairs.PairOfNames | src/go/img/layermgr.go:191-237 | the two layers of a pair are different rows of one sibling list, the mirror's name is the original's followed by `:` and flip suffixes (or suffixes alone, next to a nameless original), and a pair is in a suffix's map if and only if that suffix is among them |
| LayerBuild.BuildTables | src/go/img/layermgr.go:70-94 | enumerating in place arrives at `Build`, the tables that the next lemmas are about |
| LayerPaths.BuiltPathsAreRegular | src/go/img/layermgr.go:239-278 | without backslashes in names and without empty top-level names, full paths are distinct, `FullPath` inverts `Layers`, and each child path is its parent's, `/` and one slash-free part that fixes the layer's name |
| LayerPaths.BuiltPathsArePathLike | src/go/img/layermgr.go:239-264 | every full path meets the condition under which property text survives encoding |
| LayerClash.PathsDistinctIff | src/go/img/layermgr.go:239-264 | for every tree, full paths are distinct if and only if the labels (name, or name, backslash and number) of every sibling list are, the children of a nameless root counted with the top level |
| LayerClash.NamedPathsDistinctIff | src/go/img/layermgr.go:239-264 | with names at the top level: if and only if no sibling list holds two equal labels |
| LayerClash.PathsCanClash | src/go/img/layermgr.go:239-264 | two trees whose layers share a path, one by a backslash in a name, one by a nameless root |
| LayerWellFormed.BuiltIsWellFormed | src/go/img/layermgr.go:70-94 | for every tree with distinct sequence numbers the rows, maps, parents, children and radio groups agree, and the group of a layer is exactly its group-named siblings |
| LayerSyncs.SyncBuilder.RegisterSyncs | src/go/img/layermgr.go:164-189 | the recursive registration computes `Syncs` |
| LayerSyncs.SyncMeaning | src/go/img/layermgr.go:164-189 | registering one pair: a layer is shared exactly if it lies strictly below one side of the pair and the other side has a layer of the same path, and then with that layer alone; other entries stay |
| LayerSyncs.SyncFoldMeaning | src/go/img/layermgr.go:95-103 | after any number of registrations in any order a layer is shared with exactly the layer of equal path on the other side of the one pair around it, or with none |
| LayerSyncs.SyncOrderIrrelevant | src/go/img/layermgr.go:95-103 | the synced layers are the same for every iteration order of the three maps |
| LayerRegular.BuiltIsRegular | src/go/img/layermgr.go:70-107 | the conditions of the lemmas about states follow from the tree: names without backslashes, named roots, and pairs that share no original, hold no pair below them, have equal paths on both sides and are both group layers or neither |
| LayerConstruct.NewLayerManager | src/go/img/layermgr.go:70-107 | builds the tables, registers the synced layers of all pairs and normalises; on such a tree the image is settled from the start |
| LayerConstruct.BuildAndRun | src/go/img/layermgr.go:70-154 | construction followed by any sequence of changes, flips and state texts leaves the image settled |
| LayerConstruct.SampleIsRegular | src/go/img/layermgr.go:70-107 | a tree with a radio group and a flip pair meets the conditions |
| LayerStates.LayerStates.CopyStateRecursive | src/go/img/layerstate.go:55-75 | the recursive copy computes `CopyStates` |
| LayerCopy.CopyMeaning | src/go/img/layerstate.go:55-75 | copying changes exactly the layers strictly below the target whose path exists below the source, to the visibility found there |
| LayerStates.LayerStates.SetFlipOne | src/go/img/layerstate.go:84-113 | one flip map is processed in whatever order Go iterates it, each pair once over all maps |
| LayerStates.LayerStates.SetFlip | src/go/img/layerstate.go:206-226 | the three maps together are one pass over all pairs in some order |
| LayerFlips.FlipMeaning | src/go/img/layerstate.go:84-113 | on regular pairs, each pair with a visible side ends with exactly one side visible, the shown side's descendants take the other side's visibility at equal paths, and nothing outside the pairs changes |
| LayerPairs.MirrorMatchesSuffix | src/go/img/layerstate.go:206-226 | in any built tree, if the mirror's name carries one suffix, the mirror is the shown side if and only if the flip is the one of that suffix |
| LayerFlips.FlipOrderIrrelevant | src/go/img/layerstate.go:84-113 | the flip phase gives the same states for every iteration order of the maps |
| LayerStates.LayerStates.NormalizeGroup | src/go/img/layerstate.go:228-255 | hides the visible members of a group and shows its winner |
| LayerStates.LayerStates.NormalizeGroups | src/go/img/layerstate.go:263-269 | every group is processed once, in whatever order Go iterates the map |
| LayerStates.LayerStates.ForceAll | src/go/img/layerstate.go:257-262 | every forced layer is shown at the priority of the phase and no other layer changes |
| LayerStates.LayerStates.Normalize | src/go/img/layerstate.go:257-275 | the three phases in their order, over some order of groups and pairs |
| LayerGroups.GroupPhaseMeaning | src/go/img/layerstate.go:228-255 | after the group phase each group has exactly one visible layer, the member that won before, and layers outside groups keep their state |
| LayerGroups.GroupOrderIrrelevant | src/go/img/layerstate.go:263-269 | the group phase gives the same states for every iteration order |
| LayerStates.LayerStates.Apply | src/go/img/layerstate.go:277-291 | the layers get what normalising gives, the flip is stored, and the result tells whether any layer changed |
| LayerStates.LayerStates.SetAll | src/go/img/layerstate.go:115-157 | the saved bits replace all states at one fresh priority; a length mismatch or bad text leaves states and priority untouched |
| LayerStates.SavedFillsUniform | src/go/img/layerstate.go:115-157 | a text that saves a vector of the right length makes every state equal to its bit at the one priority, whatever the states were |
| LayerStates.LayerStates.SetVisible | src/go/img/layerstate.go:159-185 | sets a layer, or all layers synced with it, at a fresh priority; an unknown layer changes nothing |
| LayerShared.FinishedTreesAreSynced | src/go/img/layermgr.go:70-107 | for the trees of `LayerRegular.BuiltIsRegular`, the finished tables sync each layer with its counterpart in the one pair around it and with nothing else |
| LayerShared.InnerHasTwin | src/go/img/layermgr.go:164-189 | on a regular tree every layer strictly below a side of a pair has a counterpart |
| LayerShared.SetStateMeaning | src/go/img/layerstate.go:168-185 | setting a layer of finished tables sets it and its counterpart, and no other layer |
| LayerShared.SettingLasts | src/go/img/layerstate.go:159-291 | a layer outside groups that is no side of a pair keeps the visibility it is set to through all phases of normalising, and so does its counterpart, whatever the flip; only forcing overrides it |
| LayerStates.LayerStates.SetVisibleExclusive | src/go/img/layerstate.go:187-204 | sets a group layer, or the siblings outside radio groups to visible exactly at the named layer, when showing and when hiding; an unknown layer changes nothing |
| LayerExclusive.ExclusiveMeaning | src/go/img/layerstate.go:187-204 | for siblings without synced layers: of those outside radio groups exactly the named one is visible afterwards, none when hiding; siblings in groups and layers elsewhere keep their state; a group layer is only set |
| LayerExclusive.ExclusiveElsewhere | src/go/img/layerstate.go:187-204 | with synced layers too, whatever is no such sibling nor synced with one keeps its state |
| LayerExclusive.BuiltRootsAreLinked | src/go/img/layermgr.go:266-278 | in every built tree the layers without a parent are exactly the roots among which siblings are looked up |
| LayerShared.SharedExclusiveMeaning | src/go/img/layerstate.go:187-204 | on finished tables, with synced layers: of the siblings outside radio groups exactly the named one, and of their counterparts exactly its counterpart, is visible afterwards, none when hiding; all other layers keep their state |
| LayerNormal.BeforeFlip | src/go/img/layerstate.go:257-275 | before the flip phase every forced layer is visible and every group has exactly one visible layer |
| LayerNormal.FlipKeepsGroups | src/go/img/layerstate.go:84-113 | flipping keeps exactly one visible layer in every group |
| LayerNormal.ApplyIsNormal | src/go/img/layerstate.go:257-291 | from any state `Apply` ends normal: groups have one visible layer, pairs show at most the side the flip asks for, and a forced layer is visible unless its pair shows the other side |
| LayerNormal.NormalIsFixed | src/go/img/layerstate.go:257-291 | a normal state keeps its visibility under `Apply`, for all priorities and orders |
| LayerNormal.ApplyOrderIrrelevant | src/go/img/layerstate.go:257-291 | the result of `Apply` is the same for every iteration order of groups and pairs |
| LayerCommands.RunCommand | src/go/img/layermgr.go:307-424 | one command line of a state text does what `RunLine` says, or fails or panics with it |
| LayerCommands.RecordMeaning | src/go/img/layermgr.go:354-424 | on tables without synced layers an `F` or `S` command gives exactly the recorded layers their recorded visibility at one fresh priority, and panics exactly on records that are too long or too short |
| LayerShared.SharedRecordMeaning | src/go/img/layermgr.go:354-424 | on finished tables, with synced layers: a layer takes the recorded visibility of the later of itself and its counterpart among those recorded, and other layers stay |
| LayerCommands.Deserialize | src/go/img/layermgr.go:296-427 | the commands run on a scratch state that is then applied; a failing command leaves the image as it was |
| LayerHistory.LastCommandWins | src/go/img/layermgr.go:322-352 | on a tree without flip layers, after any list of `v0` and `v1` commands the visible layer of each group is the one most recently shown, directly or as an ancestor, and not hidden since |
| LayerHistory.LastShownIsVisible | src/go/img/layermgr.go:322-352 | if the last command shows a layer, that layer and everything above it are visible |
| LayerHistory.ShowLineWorks | src/go/img/layermgr.go:322-352 | the line for a layer's path takes effect if and only if the encoded path has three bytes or more; otherwise it is skipped, and the path is a single byte that needs no escape |
| LayerHistory.EveryLayerIsAddressable | src/go/img/layermgr.go:322-352 | on regular paths some line addresses each layer: with its runes escaped even a one-byte path is long enough |
| LayerImage.SetVisible | src/go/img/layermgr.go:125-132 | the image becomes what normalising the one change gives, and reports exactly whether it changed |
| LayerImage.SetVisibleExclusive | src/go/img/layermgr.go:134-141 | the same for an exclusive change, whose effect `LayerExclusive.ExclusiveMeaning` describes |
| LayerImage.SetFlip | src/go/img/layermgr.go:143-150 | the image becomes what normalising under the new flip gives |
| LayerImage.ApplySettles | src/go/img/layerstate.go:277-291 | every `Apply` on a regular tree leaves a settled image, from any state |
| LayerImage.Run | src/go/img/layermgr.go:125-154 | over any sequence of changes, flips and state texts the image stays settled, so each group has exactly one visible layer after each of them |
| LayerImage.Image.SetFlipX | src/go/img/image.go:72-85 | from any state, sets exactly one direction and reports whether anything changed; a settled image stays settled |
| LayerImage.Image.SetFlipY | src/go/img/image.go:87-99 | the same for the other direction |
| LayerImage.Image.Serialize | src/go/img/image.go:150-156 | fails exactly above 65535 layers; otherwise the text is the flip and the saved visibility |
| LayerImage.Image.Restore | src/go/img/image.go:158-164 | reading back a text that was written for a settled image gives exactly its visibility and flip, whatever the tree's were |
| LayerImage.SaveAndRestore | src/go/img/image.go:150-164 | saving one image and restoring it on another of the same tree is exact for up to 65535 layers |
| LayerImage.SerializedInjective | src/go/img/image.go:150-156 | one text stands for one visibility and flip |
| DrawCache.Drawer.Draw | src/go/ipc/ipc.go:96-136 | gives what rendering the image as it is now would give, from the cache or not, and takes the step that `CacheIsTransparent` speaks of |
| DrawCache.Drawer.Collect | src/go/ipc/ipc.go:536-545 | drops exactly the entries unused for more than a minute and keeps the cache faithful |
| DrawCache.CacheIsTransparent | src/go/ipc/ipc.go:24-32 | over any run of drawings and collections every drawing gives the bytes of an uncached one |
| FavouriteTree.InsertManyKeepsDistinct | src/go/img/pfv.go:457-483 | siblings have distinct names after any list of inserts, also of paths that cannot be decoded |
| FavouriteTree.InsertArrives | src/go/img/pfv.go:457-483 | an insert ends at the node with the decoded names, and fails exactly if some part cannot be decoded |
| FavouriteTree.InsertKeepsPositions | src/go/img/pfv.go:457-483 | an insert leaves every node where it was, with its names |
| FavouriteTree.FindNodeLoop | src/go/img/pfv.go:297-327 | the lookup loop computes `FindNode` |
| FavouriteTree.FindNodeOfFullPath | src/go/img/pfv.go:29-40 | looking up a node's full path gives that node, whatever bytes the names hold, if and only if the path is not empty |
| FavouriteTree.EmptyPathIsNamelessRoot | src/go/img/pfv.go:29-40 | the path is empty exactly for a root without a name |
| FavouriteTree.InsertedIsFound | src/go/img/pfv.go:297-327 | every node of a tree made by inserts is found by its path, and still after later inserts |
| FavouriteStates.RestoreOpen | src/go/img/pfv.go:205-219 | restoring fails exactly if some saved path is in error, and otherwise each node's flag comes from an entry that leads to it, in any iteration order |
| FavouriteStates.RestoreUndoesSave | src/go/img/pfv.go:190-219 | restoring what was saved gives every node its saved flag |
| FavouriteStates.NamelessRootIsNotRestored | src/go/img/pfv.go:190-219 | a tree whose root has no name saves an entry that cannot be restored |
| FavouriteStates.ListedStates | src/go/img/pfv.go:391-419 | an item's flag is set exactly for the layers that some line names on its way down |
| FavouriteStates.MarkedWithParents | src/go/img/pfv.go:391-419 | on regular paths a line switches on, with each layer, all layers above it |
| FavouriteStates.MakeFilter | src/go/img/pfv.go:638-652 | clears exactly what a filter on the way to the root holds back, and tells whether there is any |
| IpcStreams.Send | src/c/ipc.c:750-1092 | each `ipc_*` function writes exactly the bytes of its command |
| IpcStreams.TakeRequest | src/go/ipc/ipc.go:309-534 | the server's reading functions take exactly what the specification reads |
| IpcStreams.TakeProps | src/go/ipc/ipc.go:401-447 | the loop over tagged properties, in any order and with unknown tags skipped |
| IpcStreams.WriteReply | src/go/ipc/util.go:91-149 | the server writes exactly the bytes of the reply, success or error |
| IpcStreams.TakeOutcome | src/c/ipc.c:436-475 | the plugin reads the reply word, the error text or the payload of its command |
| IpcRoundTrip.PropsBack | src/c/ipc.c:924-1052 | every subset of the properties is read back as it was given |
| IpcRoundTrip.RequestIsRead | src/go/ipc/ipc.go:309-534 | for every command the server decodes the caller's arguments and reads exactly the bytes written |
| IpcRoundTrip.ReplyIsReceived | src/go/ipc/util.go:125-149 | for every answer, error or not, the plugin reads exactly the bytes written and gets the answer |
| IpcRoundTrip.ErrorNeedsText | src/go/ipc/util.go:125-138 | an error arrives as an error if and only if its text is not empty |
| IpcRoundTrip.RunIsDirect | src/c/ipc.c:750-1092 | over any run of commands the pipes are empty after each, nobody waits in vain, the caller sees what direct calls would return, and no drawing ends for want of buffer |
| IpcStreams.Session | src/c/ipc.c:816-869 | the two sides working on two pipes step by step arrive at the run of `RunIsDirect`, with both pipes empty |
| IpcHandoff.HandoffIsSafe | src/c/ipc.c:436-515 | in every interleaving of caller, reader thread and server the two threads never read the pipe at the same time, nobody misreads a token, and each `get_reply` returned the reply to its own command, an error exactly if its text is not empty |
| IpcHandoff.HandoffProceeds | src/c/ipc.c:709-748 | until every command is answered some process can step, if and only if the caller does not wait for the payload of a command refused without a text |
| IpcHandoff.HandoffCompletes | src/c/ipc.c:709-748 | a run that no process can continue is bounded, and has answered every command with its own reply if and only if no command with a payload is refused without a text; else it waits at the first such one |
| IpcReaders.OneReadsInput | src/go/ipc/ipc.go:500-587 | in every interleaving at most one goroutine reads standard input, `dispatch` only while no `readCommand` exists, and there are as many replies as exporters that got one |
| IpcReaders.TurnsKeepReplies | src/go/ipc/ipc.go:500-587 | if no request is written while another one waits, every reply goes to the exporter that asked for it |
| IpcReaders.ReplyCanStray | src/go/ipc/ipc.go:500-534 | as long as every reply went to its own exporter, the next one can go to another if and only if it is on offer while two exporters wait |
| IpcReaders.RepliesCanStray | src/go/ipc/ipc.go:500-587 | over all continuations without another request: some reply can reach the wrong exporter if and only if two exporters wait and a reader can still come to hand over a reply |
| IpcReaders.LoopKeepsReplies | src/go/gui/gui.go:149-158 | exporters that are called from one loop, each after the last has returned, take turns, so every reply goes to the one that asked for it |
| IpcReaders.RepliesCanBeSwapped | src/go/ipc/ipc.go:221-300 | called from two goroutines, which the program does not do, two exporters could get each other's reply |
| IpcReaders.ConfirmationIsOwed | src/go/ipc/ipc.go:500-534 | a reader that waits for a confirmation is owed it by exactly one exporter |
| BitReversal.MakeIpt | src/c/3rd/fft/fftsg.c:704-721 | entry `m + k` is `8*m*rev(k)` on every level `m`, and nothing before the table changes |
| BitReversal.DocumentedRoom | src/c/3rd/fft/fftsg.c:105-110 | the documented length of the work area, `2 + sqrt(2*nw)`, has room for every level |
| BitReversal.TableServes | src/c/3rd/fft/fftsg.c:704-721 | a table built for a larger transform serves every smaller one |
| BitReversal.BitRv2 | src/c/3rd/fft/fftsg.c:896-1240 | for every power of two from 64 on, in both branches, all accesses are in bounds and each complex number moves to its bit-reversed index, the rest staying |
| BitReversal.RevIndex | src/c/3rd/fft/fftsg.c:907-1239 | reversing an index puts its fields in opposite order, each reversed on its own |
| BitReversal.ReversedTwiceIsSame | src/c/3rd/fft/fftsg.c:896-1240 | applying the permutation twice gives the array back |
| JsonLoops.EncodeTable | src/lua/json.lua:59-98 | the two printing loops compute `Encode`, with the errors for mixed keys and sparse arrays |
| JsonLoops.ParseString | src/lua/json.lua:218-256 | copying stretches between escapes gives the same string as reading character by character |
| JsonLoops.ParseArray | src/lua/json.lua:280-304 | the loop computes `ArrayFrom` and terminates |
| JsonLoops.ParseObject | src/lua/json.lua:307-341 | the loop computes `ObjectFrom` and terminates |
| JsonLoops.DecodeText | src/lua/json.lua:375-385 | one value and blanks, or an error |
| JsonRoundTrip.RoundTrip | src/lua/json.lua:134-136 | printing a value of booleans, byte strings, surviving numbers, arrays and string-keyed objects never fails, and reading the text gives the value, whatever order `pairs` takes; the empty array and the empty object are one table, as `EmptyIsShared` says of their texts |
| JsonRoundTrip.OrderIrrelevant | src/lua/json.lua:59-98 | texts printed in different key orders are read as the same value |
| JsonRoundTrip.ValueAt | src/lua/json.lua:365-372 | inside any text, reading a printed value ends exactly at its end |
| JsonRoundTrip.ShortSurvives | src/lua/json.lua:106-112 | every integer below 10^14 in magnitude survives |
| LuaString.FindAssignment | src/c/luastr.c:5-36 | the search computes `FindAssign` |
| LuaString.Encode | src/c/luastr.c:146-216 | the encoder gives the escaped literal and never writes past its grown capacity |
| LuaString.Decode | src/c/luastr.c:218-289 | the decoder computes `Decoded` for every text, and the end mark lies within the buffer's capacity for every text but a single double quote |
| LuaString.Rewrite | src/c/assist.c:564-629 | the send button's rewriting computes `Rewritten` |
| LuaRewrite.DecodedEncoded | src/c/luastr.c:146-289 | decoding undoes encoding for every value without NUL |
| LuaRewrite.FindAssignAt | src/c/luastr.c:5-36 | an assignment is found as long as it is if and only if its value does not end in a backslash |
| LuaRewrite.StateIsFirst | src/c/assist.c:599-606 | the search for the state finds its own assignment first if and only if the file does not end in `ptkl=` |
| LuaRewrite.RewriteReplaces | src/c/assist.c:564-629 | exactly the two values are replaced, everything around them stays, and the old file is reported |
| LuaRewrite.RewriteReadsBack | src/c/assist.c:564-629 | reading back gives the new file and state |
| LuaRewrite.TrailingBackslashIsLost | src/c/luastr.c:22-28 | a file that ends in a backslash is not found as it was written |
| SpeakPool.Scan | src/c/speak.c:59-81 | the scan finds the slot of the path, or the first free and the least recently used slot |
| Speak.Speaker.OpenItem | src/c/speak.c:49-112 | the pool in place becomes what `Open` says, on every success and failure path |
| Speak.Speaker.ReadItem | src/c/speak.c:114-138 | the pool and the handle that is read are what `Read` says |
| Speak.Speaker.SweepItems | src/c/speak.c:189-201 | the sweep in place is `Sweep` |
| Speak.Speaker.CloseAll | src/c/speak.c:295-322 | the exit in place closes exactly the handles in use |
| SpeakPool.RunKeeps | src/c/speak.c:34-138 | over any run of reads and sweeps no two slots hold the same path, each handle in use was opened for its slot's path, none is closed twice, and opened minus closed is the number of slots in use |
| SpeakPool.ExitClosesAll | src/c/speak.c:295-322 | after the exit every handle ever opened is closed, exactly once |
| SpeakPool.EvictsLeastRecent | src/c/speak.c:59-99 | a slot is emptied for a new path only when all are in use, and then one with the least time |
| SpeakPool.ReadUsesOwnHandle | src/c/speak.c:114-138 | a read uses a handle opened for its path if and only if the path was cached or its handle went to slot 0 |
| SpeakPool.SecondFileReadsFirst | src/c/speak.c:49-138 | with one file open, the first read of a second file reads from the first |

## Left out

- LayerHistory.LastCommandWins: for trees without flip layers only, as a flip may copy visibility over what a command has set.
- LayerFlips.FlipMeaning: for regular trees, in which pairs are not nested and share no layer, and both sides have the same paths and are both group layers or neither (`LayerRegular.FlipsPlain` says it of the names); the code promises nothing for others.
- LayerCommands.RunCommand: the favourites that `F` and `S` commands look up are a parameter; log output is left out.
- BitCodec.DeserializeBitsAsBool: Go's base64 decoder also skips line breaks in its input, which no saved text contains.
- DrawCache.Drawer.Draw: rendering is a function of path, visibility, flip, scale and frame, so a file that changes on disk under its path is not modelled, nor are NaN scales, which never equal themselves as map keys.
- FavouriteTree.InsertManyKeepsDistinct: the tree is a value, so the `Parent` pointers that go stale when Go moves a slice are not modelled; names and filters agree in the stale copies.
- FavouriteStates.MakeFilter: the chain of ancestors is an argument, as parents are not stored in the tree.
- IpcRoundTrip.RunIsDirect: for strings below 2^31, image sizes of less than 2^31 bytes and error texts that are not empty, and without requests of the server between a command and its reply.
- IpcHandoff.HandoffIsSafe: one calling thread, a running process and successful writes; the recursive mutex, which is unlocked more often than locked, is left out, and so are requests of the server, whose acknowledgement the reader thread writes without a lock.
- IpcReaders.OneReadsInput: what is read is left open, so every input is covered; freedom from deadlock between the window and the server loop is not promised by the code.
- BitReversal.BitRv2: the trigonometric tables and the butterflies around it are floating-point work and left out.
- JsonRoundTrip.RoundTrip: other numbers than integers below 10^14 are read and shown by Lua functions taken as parameters, and take part when these give the number back; circular references, keys that are neither strings nor integers and the text of error messages are left out.
- Speak.Speaker.ReadItem: the audio transform behind the read is left out, and the mutex is taken as held.
- Prop.PropRoundTrip: which runes Shift_JIS can encode is a predicate given from outside.
- Layer states that are saved by name (`DeserializeSafe`) write visibility directly and skip normalisation.
- All windows, menus, clipboard and drawing code, and the detection of text encodings.
