# sling-cli verification model

A Dafny model of the parts of sling-cli whose correctness is hardest to see from
the code: the editor that changes `env.yaml` in place, the graphs of API
endpoints and state variables, the protocol that loads a stream into a table,
and four run-time state machines. Everything below is proved for all inputs and
all runs, by Dafny 4.11, with `dafny verify dfyconfig.toml`.

The files follow the program:

- **The env.yaml editor.** `LineSplice` (line edits and their bottom-up splice),
  `LineGeometry` (where an entry starts and ends), `MappingEdits`, `MappingText`,
  `MappingOrder`, `MappingValues`, `MappingUpdate` (the recursive update of a
  block mapping), `EnvPlan` (what each operation plans), `EnvSplice` and `EnvText`
  (when a plan is spliced rightly, and into what), `EnvFile` (the comparison that
  guards an edit), `EnvEditor` (the editor object and whole runs of it), `SaveText` (the lines a save writes, told
  from the encoder and the values), `EntryForms` (blocks and entries in each form
  a file can have them in),
  `EntryUpdate`, `EnvUpdate` and `SaveBoth` (saving over a connection, writing env
  keys, and both in one save, end to end), `EnvFailures` (saves that go wrong), `FileText`, `ScalarText`,
  `Values`, and `NodeMerge` (the tree merge used when a file is rendered again).
- **Graphs.** `Endpoints`, `EndpointOrder`, `EndpointSort`, `EndpointGroups`,
  `StateOrder`.
- **The load protocol.** `Upsert`, `Warehouse`, `LoadProtocol`, `ReplicationRun`.
- **State machines.** `PipelineRun`, `StreamList` with `StreamChunks` and
  `TableNames`, `Secrets` with `SecretRecovery` and `SecretNames`, `LogRing`.
- `Text`, `Sequences` and `Names` hold what the others share.

What the source takes from elsewhere is a parameter: the YAML parser is any
function from lines to a tree whose positions fit them, the encoder any function
that writes a pair from its key's line on, case folding any function that tells
the block names apart, the database may fail at any statement, attempts of a
pipeline step turn out in any way, map iteration is any order.

## What the proofs say about the code

These are places where the code promises more than it does. Each is stated
exactly, as an equivalence or with an input that shows it.

- Splicing line edits bottom-up is the one-pass edit exactly when no non-empty
  insert was added after a replace with the same start (`LineSplice.SpliceExact`).
  An update plans such a pair exactly when it visits a key that it writes again
  before a key that gains a nested key right above it
  (`MappingOrder.SetEditsLate`, `MappingUpdate.UpdateExact`). Visiting `type`
  first, as `connKeyOrder` does, can do that (`MappingUpdate.TypeFirstGoesWrong`).
  A save over a connection then goes through only if the entry reads as what it
  must hold, or as no mapping at all (`EntryUpdate.Update`).
- `SetEnv` visits keys by name and its comparison leaves the written keys out, so
  there the same fault is not noticed: a value is lost and the save goes through
  (`EnvFailures.EnvKeyIsLost`). Where the new lines are read as they are laid out,
  the env keys hold what was written exactly if no nested mapping that changes is
  set to `{}` (`EnvUpdate.Update`).
- A save that writes a connection and env keys together also goes wrong when the
  env block gains a key right above a connections block that is no block mapping
  (`EnvSplice.SetPlanLate`, `EnvFailures.BlocksMeet`). Where both are block
  mappings and the new lines are read as they are laid out, an allowed save
  succeeds exactly if the entry's update is faithful, and the env block holds
  what was written exactly if its own update is (`SaveBoth.Update`). A first
  connection saved together with env keys lands right exactly if the env block
  gains no key at the end of the file (`EnvText.NewBlockText`); else the key slips
  into the new block, and a proper save is refused
  (`EnvFailures.SlippedKeyRefused`).
- In replace mode a mapping that changes and is set to `{}` leaves a bare key,
  which reads as null, so the update reads back wrong exactly then
  (`MappingValues.SetValues`). For a nested mapping such a save is refused; for
  the entry itself it goes through and leaves null (`EntryUpdate.Update`,
  `EntryUpdate.EmptyEntryAccepted`).
- `Bytes` after loading gives back the text exactly when all its line ends are
  alike and it does not end in a carriage return (`FileText.BytesExact`).
- A single-quoted scalar is delimited rightly exactly when no quote follows it
  (`ScalarText.SingleExact`).
- A stream's own error is reported only after the final commit, as is a failure
  of post-SQL: an error from `WriteToDb` does not mean that the target is
  unchanged (`LoadProtocol.WriteToDb`, `LoadProtocol.StreamFails`,
  `LoadProtocol.PostSqlFails`).
- A load leaves its first transaction open exactly if it fails between opening it
  and the import (`LoadProtocol.WriteToDb`, `LoadProtocol.ConfigureFails`).
- A target is cleared for chunked loading before the check for disabled streams,
  so a table all of whose chunks are disabled is emptied too
  (`ReplicationRun.DisabledStillCleared`). Where no statement fails, the clear
  fails exactly for a chunked truncate of a table that does not exist yet
  (`ReplicationRun.ClearTableForChunkLoad`).
- Splitting streams into chunks keeps list and map in agreement exactly when the
  chunked streams have different prefixes and no chunk takes the name of a stream
  but one that was chunked before it (`StreamList.Replication.ProcessChunks`). One
  table listed under its plain and its quoted name breaks it
  (`StreamChunks.SameTableTwice`).
- Promoted properties pass the check for literals exactly when the connection's
  name can start a variable name or every literal has its reference on disk, and
  no literal sits in a nested map that is copied when read
  (`Secrets.PromotedAccepted`). Promoted secrets expand to what they were exactly
  when secrets that get one variable have one text and the variables of kept
  references are set to nothing else (`SecretNames.RecoveredExactly`); nested keys
  "a-b", "a.b" and "a_b" lose a secret (`SecretRecovery.ThreeSpellings`).

## Model

| member | source | states |
|---|---|---|
| LineSplice.LineEdits.constructor | core/env/envedit.go:907-911 | a new collector holds no edits |
| LineSplice.LineEdits.Replace | core/env/envedit.go:919-921 | adds one edit at the end of the plan and keeps the numbering the sort relies on |
| LineSplice.LineEdits.Insert | core/env/envedit.go:923-925 | an insert is an edit of an empty range, added at the end |
| LineSplice.LineEdits.Apply | core/env/envedit.go:929-943 | the loop computes the bottom-up splices, which are the single left-to-right pass over the lines whenever no insert is late |
| LineSplice.SortSorts | core/env/envedit.go:931-936 | the sort keeps every edit once, puts later lines first, and on one line the latest added first |
| LineSplice.SpliceIsOnePass | core/env/envedit.go:929-943 | in-range, disjoint edits without a late insert: untouched lines are copied byte for byte, each replacement stands in place, inserts at one line come in the order added |
| LineSplice.SortedFits | core/env/envedit.go:937-942 | every splice of such a plan finds its range inside the running text |
| LineSplice.SpliceExact | core/env/envedit.go:929-943 | a plan is spliced rightly into all files of a given length if and only if it has no non-empty late insert |
| LineGeometry.KindIs | core/env/envedit.go:1050-1059 | what a line of spaces, text and trailing space is to the walks: blank, comment, item or other content, with its indent |
| LineGeometry.FindValueEnd | core/env/envedit.go:822-837 | finds the last line of a key's value, by a declarative description of it: everything up to the result is blank, comment or deeper, and what follows it is not part of the value |
| LineGeometry.ValueEndUnique | core/env/envedit.go:822-837 | only one line meets that description |
| LineGeometry.FindBlockEnd | core/env/envedit.go:841-855 | finds the last line of the comments that belong under an entry |
| LineGeometry.BlockEndUnique | core/env/envedit.go:841-855 | only one line meets the description of a block's end |
| LineGeometry.FindHeadStart | core/env/envedit.go:859-865 | finds the first line of the comment block right above a key, and no line further up belongs to it |
| LineGeometry.SiblingsApart | core/env/envedit.go:822-865 | for any lines, the spans of two keys at one column, from head comments to trailing comments, are disjoint and in file order |
| LineGeometry.ChildInside | core/env/envedit.go:822-865 | the span of a deeper key inside a value lies inside the span of its parent |
| Values.Merge | core/env/envedit.go:1320-1335 | under each key stands the merge of two mappings, else the incoming value, else the old one, and there are no other keys |
| Values.MergeProps | core/env/envedit.go:1320-1335 | the loop over the incoming keys, in any order, computes that merge |
| Values.LooseIs | core/env/envedit.go:1105-1145 | what the loose comparison takes for equal: scalars with one text, lists item by item, mappings with the same keys key by key, and nothing across kinds |
| Values.SameReflexive | core/env/envedit.go:1105-1132 | the loose comparison is reflexive |
| Values.SameSymmetric | core/env/envedit.go:1105-1132 | it is symmetric although it compares keys of the left side only |
| Values.SameTransitive | core/env/envedit.go:1105-1132 | it is transitive |
| Values.MergeRespectsSame | core/env/envedit.go:1320-1335 | merging values that compare equal gives values that compare equal |
| Values.MergeOfSame | core/env/envedit.go:1320-1335 | merging what an entry already holds changes nothing, which is why unchanged keys may be skipped |
| Values.MergeTwice | core/env/envedit.go:1320-1335 | saving the same props twice is saving them once |
| MappingUpdate.MappingEdit.SetScalar | core/env/envedit.go:756-784 | a scalar edit replaces exactly the key's own line, or nothing is planned when the line cannot hold the value |
| MappingUpdate.MappingEdit.SetKey | core/env/envedit.go:676-717 | the edits planned for one key whose value changed, recursively for nested mappings |
| MappingUpdate.MappingEdit.DropKeys | core/env/envedit.go:720-729 | the edits planned for the keys that props does not pass |
| MappingUpdate.MappingEdit.AddKeys | core/env/envedit.go:731-748 | new keys are planned as one insert behind the mapping, in visiting order |
| MappingUpdate.MappingEdit.Set | core/env/envedit.go:660-750 | the whole plan of a recursive update equals its specification, for any tree and visiting order |
| MappingText.SetRegion | core/env/envedit.go:660-750 | for any visiting order, the lines between a key and the end of its mapping become the text of the updated mapping: kept pairs keep their comments and untouched lines |
| MappingOrder.SetEditsApplicable | core/env/envedit.go:660-750 | the edits of an update are in range and pairwise disjoint, for every tree and every visiting order |
| MappingOrder.SetInserts | core/env/envedit.go:660-750 | the lines at which an update inserts: exactly those where a mapping that is set ends and gains a key |
| MappingOrder.SetEditsLate | core/env/envedit.go:660-750 | an update plans a late insert if and only if some mapping visits a key it writes again before a key that gains a nested key right above that line |
| MappingOrder.FileOrderNotLate | core/env/envedit.go:669-748 | visiting keys in file order at every level never does that |
| MappingValues.SetKeepsOrder | core/env/envedit.go:669-748 | surviving keys keep their relative order and new keys come last in visiting order |
| MappingValues.KeyValues | core/env/envedit.go:685-717 | one updated key reads as its merge or replacement, if and only if it is faithful |
| MappingValues.SetValues | core/env/envedit.go:660-750 | the updated mapping reads, up to the loose comparison, as the deep merge, the replacement or the one-level merge, if and only if in replace mode neither it nor a nested mapping that changes is set to the empty map |
| MappingUpdate.UpdateInPlace | core/env/envedit.go:660-750 | the file after an update that does not go late is the lines before, the text of the updated mapping, and the lines after |
| MappingUpdate.UpdateExact | core/env/envedit.go:660-750 | the planned edits are spliced rightly into every file of that many lines if and only if the update does not go late |
| MappingUpdate.UpdateInFileOrder | core/env/envedit.go:660-750 | in file order the update changes only the mapping's lines, and it reads as promised exactly if it is faithful and leaves a key |
| MappingUpdate.SaveSameNoEdit | core/env/envedit.go:676-688 | props an entry already holds plan no edit at all |
| MappingUpdate.TypeFirstGoesWrong | core/env/envedit.go:1284-1303 | a file and props for which visiting `type` first goes late: the new nested key is lost and the old `type` line stays |
| SaveText.MappingIs | core/env/envedit.go:660-784 | the lines of a saved mapping, told from the file, the encoder and the values alone: kept pairs as they stand, a pair written again as its line with the new scalar or as the encoder writes what it must hold (in flow style if it was), and the new keys last, each as the encoder writes its value, in visiting order |
| SaveText.EntryLinesAre | core/env/envedit.go:514-532 | so it is for an entry, with the comment at new references and the canonical order of the keys |
| SaveText.EnvLinesAre | core/env/envedit.go:617-620 | and for env keys, without such comments, each replacing what its key held, by name |
| SaveText.MustHoldIs | core/env/envedit.go:685-717 | what a key is written again with is what the whole entry must hold under it |
| EntryUpdate.Update | core/env/envedit.go:514-532 | saving props over a block entry writes exactly the lines that the encoder makes of what each key must hold, and leaves the rest of the file byte for byte, unless it goes late; a mapping left under the name holds what it must; where the parser reads the new lines as laid out, the save succeeds if and only if the update is faithful, and leaves a wrong value if and only if the entry is replaced by no props; otherwise nothing changes |
| EntryUpdate.SaveOutcome | core/env/envedit.go:235-247 | the comparison after the parse passes exactly for faithful updates, and what is then under the name |
| EntryUpdate.LaidIs | core/env/envedit.go:660-750 | the entry is laid out as wanted exactly if the update is faithful and leaves a key; with no key left it reads as null |
| EntryUpdate.EmptyEntryAccepted | core/env/envedit.go:243-245 | an entry replaced by no props passes the comparison although it reads as null |
| SaveBoth.Update | core/env/envedit.go:220-249 | one save of a block entry and env keys: unless it goes late the two blocks become the text of their updates and all other lines stay; where the parser reads the new lines as laid out, it succeeds if and only if it is allowed and the entry's update is faithful, and each block holds what it must if and only if its own update is faithful and, for the entry, does not replace it by no props |
| SaveBoth.BothOutcome | core/env/envedit.go:235-247 | what the comparison of one save says of both blocks, and what they then hold |
| SaveBoth.BothWrites | core/env/envedit.go:220-233 | the lines of the entry and of the env block after one save, in either order of the blocks |
| EntryForms.EnvNameIs | core/env/envfile.go:1038-1046 | the env block goes by `variables` exactly in a file that has that and no `env` |
| EntryForms.EnvAllowedIs | core/env/envedit.go:574-597 | exactly when env keys may be written, by what the file's env block holds |
| EntryForms.HasEntryIs | core/env/envedit.go:195-200 | exactly when a file has a connection, by what its connections block holds |
| EntryForms.IndentUnitIs | core/env/envedit.go:884-905 | the step of the first nested mapping, kept between two and nine |
| EntryForms.NewEntryReads | core/env/envedit.go:428-445 | a new entry is a text exactly if it has a url and nothing else, and reads as the props it was written for |
| EntryForms.NewInBlock | core/env/envedit.go:449-463 | the lines after a new connection is added to a block |
| EntryForms.NewInEmpty | core/env/envedit.go:464-474 | the edits that add one to a block without a value |
| EntryForms.LeafSaved | core/env/envedit.go:534-570 | an entry that is a url, in flow style or empty is written again with what it must hold, but a url saved over a url changes only its line |
| EntryForms.UrlGrows | core/env/envedit.go:546-557 | a url that gets other props becomes one of them |
| EntryForms.EnvLeafSaved | core/env/envedit.go:622-647 | env keys written to a block that is empty, in flow style, or no mapping |
| EnvEditor.EnvFileEditor.constructor | core/env/envedit.go:78-110 | the editor starts with the parse of its lines |
| EnvEditor.EnvFileEditor.Apply | core/env/envedit.go:402-424 | the edit is kept exactly if the result parses and passes the comparison; otherwise lines and tree stay |
| EnvPlan.ConnOrderVisits | core/env/envedit.go:1284-1303 | the key order of an entry has every key once, `type` first |
| EnvPlan.TopsApart | core/env/envedit.go:822-865 | the connections block and the env block do not reach into one another |
| EnvEditor.EnvFileEditor.FindSpaced | core/env/envedit.go:869-880 | tells whether a blank line stands above some pair but the first |
| EnvEditor.EnvFileEditor.AddTopBlock | core/env/envedit.go:496-510 | plans one insert at the end of the file, behind a blank line in a spaced file that ends in text |
| EnvEditor.EnvFileEditor.AddChild | core/env/envedit.go:449-493 | plans a new last child of a block, an empty or a flow mapping, or fails on anything else |
| EnvEditor.EnvFileEditor.OrderKeys | core/env/envedit.go:1284-1303 | the loops compute `type`, the template order, then the rest by name, each key once |
| EnvEditor.EnvFileEditor.UpdateEntry | core/env/envedit.go:514-570 | plans the edits of a block, URL, empty or flow entry, and what it must hold after them |
| EnvEditor.EnvFileEditor.SetEnvLines | core/env/envedit.go:601-647 | plans the edits of a missing, block, empty or flow env block, or fails on anything else |
| EnvSplice.SetPlanApplicable | core/env/envedit.go:220-233 | whatever Set plans for an entry and env keys together is in range and disjoint, for every file the parser reads |
| EnvSplice.EnvEditsApplicable | core/env/envedit.go:601-647 | so is every plan for env keys alone |
| EnvSplice.EnvInserts | core/env/envedit.go:601-647 | the lines at which env keys are inserted, and exactly when their plan has a late insert |
| EnvSplice.SetPlanLate | core/env/envedit.go:220-233 | the plan of one save has a late insert if and only if the entry's update or the env update goes late, or the env block gains a key right above a connections block that is written again |
| EnvSplice.SetPlanExact | core/env/envedit.go:220-233 | exactly then it is not spliced rightly into every file of that many lines |
| EnvText.SetText | core/env/envedit.go:220-233 | with both blocks in the file, each becomes what its own edits make of it and every other line is copied |
| EnvText.NewBlockText | core/env/envedit.go:496-510 | a new connections block comes below the file as the env keys leave it if and only if the env block gains no key at the end of the file |
| EnvEditor.EnvFileEditor.Set | core/env/envedit.go:182-248 | plans and applies the edits; succeeds exactly if the arguments are allowed, the edits can be planned, and the edited file passes the comparison, and then every other connection and env key keeps its value; a failure changes nothing |
| EnvEditor.EnvFileEditor.SetEnv | core/env/envedit.go:335-355 | succeeds exactly if the keys are allowed, the edits can be planned, and nothing but the named keys differs after them; a failure changes nothing |
| EnvUpdate.Update | core/env/envedit.go:335-355 | where the parser reads the new lines of a block as laid out, every allowed save succeeds, and the block holds the updates if and only if they are faithful; its lines are those that the encoder makes of the updates unless they go late |
| EnvUpdate.EnvOutcome | core/env/envedit.go:346-354 | the comparison always passes there, whatever the named keys hold |
| EnvFailures.EnvKeyIsLost | core/env/envedit.go:335-355 | a file and updates for which a save succeeds, loses a value and leaves a wrong one |
| EnvFailures.BlocksMeet | core/env/envedit.go:460-470 | an env block right above `connections: {}`: the env key is lost and the block's key is written twice |
| EnvFailures.EnvKeySlips | core/env/envedit.go:496-510 | an env block at the end of a file without connections: the env key lands below the new block |
| EnvFailures.SlippedKeyRefused | core/env/envedit.go:235-247 | where the parser then finds the key among the connections, the save is refused |
| EnvEditor.EnvFileEditor.Delete | core/env/envedit.go:253-290 | removes exactly the entry's lines with its head comment and at most one blank line, or empties the block when it was the only entry; other connections keep their values; succeeds if and only if the entry stands in a block and the lines without it parse to a file without it |
| EnvEditor.DeleteText | core/env/envedit.go:263-280 | the lines after a delete, with the edits in range and disjoint |
| EnvEditor.DeleteSparesOthers | core/env/envedit.go:263-274 | the lines a delete removes reach into no other entry |
| EnvEditor.EnvFileEditor.Rename | core/env/envedit.go:295-331 | changes the key's line only; the value taken out under the old name is the one under the new, and no other connection changes; succeeds if and only if the new name is proper and free, the entry is there, and the file parses to the same under the new name |
| EnvEditor.RenameText | core/env/envedit.go:316-320 | the single edit of a rename is applicable and replaces one line |
| EnvFile.ComparisonExact | core/env/envedit.go:1148-1182 | the comparison passes if and only if all other connections, env keys and blocks are the same; it does not tell an empty block, a null one and none apart |
| EnvFile.ComparisonKeeps | core/env/envedit.go:1148-1184 | equal files after dropping a name and env keys from both mean that every other connection (up to case), env key and block is the same |
| EnvEditor.Step | core/env/envedit.go:182-355 | any one operation leaves exactly the lines it is to make, or on failure what was there, and touches only what it names |
| EnvEditor.RunAll | core/env/envedit.go:182-355 | over any sequence of operations the lines are those the operations make one after the other, the tree is their parse, and every connection and env key that no operation names keeps its first value |
| FileText.Load | core/env/envedit.go:86-98 | splitting into lines, the line ending and the final newline as specified |
| FileText.BytesExact | core/env/envedit.go:86-98 | loading and writing back gives the same bytes if and only if the line ends are all LF or all CRLF and the text does not end in a carriage return |
| ScalarText.ScalarEnd | core/env/envedit.go:1004-1037 | the loop finds the specified end of a scalar in each style |
| ScalarText.SingleExact | core/env/envedit.go:1017-1027 | a single-quoted scalar (section 7.3.2 of YAML 1.2.2) is delimited exactly if and only if no quote follows it |
| ScalarText.DoubleExact | core/env/envedit.go:1006-1016 | a double-quoted scalar with backslash escapes (section 7.3.1) is delimited exactly, whatever follows |
| ScalarText.PlainExact | core/env/envedit.go:1029-1036 | a plain scalar ends before trailing space and a comment (section 6.6) |
| ScalarText.ScalarExact | core/env/envedit.go:1004-1037 | all three styles in one statement |
| ScalarText.SpliceBack | core/env/envedit.go:756-784 | replacing a scalar keeps everything before and after it, and replacing it back restores the line |
| NodeMerge.MergeMapping | core/env/envfile.go:468-504 | the index maps and loops compute the specified merge of two mappings |
| NodeMerge.MergeKeepsOrder | core/env/envfile.go:468-504 | surviving keys in their old order, then the new ones in their new order |
| NodeMerge.MergeAt | core/env/envfile.go:424-504 | each key holds the new value, merged over the old one where there was one |
| NodeMerge.MergedAt | core/env/envfile.go:412-470 | what stands at the end of every path of the merged tree: where both trees share the path, the old comments, and on a scalar the old text exactly if it is the new one or has a reference and expands to it; elsewhere what the new tree has |
| NodeMerge.MergeKeysAre | core/env/envfile.go:468-504 | exactly as many keys as the new tree, none twice |
| NodeMerge.MergeRepresents | core/env/envfile.go:412-504 | the merged tree has the new tree's keys and lengths, and every scalar is the new text or an on-disk text that expands to it |
| NodeMerge.MergeSelf | core/env/envfile.go:424-463 | merging a tree with itself changes nothing |
| NodeMerge.MergeTwice | core/env/envfile.go:424-463 | saving the same tree twice is saving it once |
| Endpoints.QueueIs | core/dbio/api/spec.go:583-633 | a text names a queue exactly if it is `queue.` and the queue's name |
| Endpoints.HasUpstreams | core/dbio/api/spec.go:583-633 | the sorted list, without repeats, of exactly the other endpoints that produce the queue an endpoint iterates over |
| Endpoints.BuildDependencyMap | core/dbio/api/spec.go:693-702 | every endpoint is mapped to exactly its upstreams |
| Endpoints.DependencyMapUnique | core/dbio/api/spec.go:693-702 | the map is determined by the endpoints |
| EndpointOrder.Reverse | core/dbio/api/spec.go:706-722 | every name is mapped to exactly its dependents, whatever the map iteration order |
| EndpointOrder.InitialQueue | core/dbio/api/spec.go:724-733 | the queue starts with exactly the names that wait for nothing |
| EndpointOrder.Finish | core/dbio/api/spec.go:737-756 | one turn keeps the invariant: in-degrees count what is not yet emitted, the queue holds the ready names, the emitted part is in order |
| EndpointOrder.TopologicalSort | core/dbio/api/spec.go:705-773 | a permutation of the names; each name of the emitted part follows its dependencies; the rest is appended in list order and is stuck; nothing is appended if and only if there is no cycle |
| EndpointSort.Sort | core/dbio/api/spec.go:671-690 | the same endpoints reordered: producers before consumers, what is left only by queues in a circle at the end by name |
| EndpointSort.DependenciesKept | core/dbio/api/spec.go:671-690 | sorting does not change what depends on what |
| EndpointGroups.GroupWalk.Visit | core/dbio/api/spec.go:791-808 | a visit adds only names connected to where it starts, each once, and leaves nothing linked to them unvisited; it terminates although `visited` is shared |
| EndpointGroups.VisitIsComponent | core/dbio/api/spec.go:791-808 | a visit from an unvisited name finds exactly its connected component |
| EndpointGroups.DAG | core/dbio/api/spec.go:776-831 | the groups are exactly the connected components: sorted, every endpoint in one, two endpoints in one group if and only if an undirected path joins them, groups ordered by first name |
| EndpointGroups.PartitionDisjoint | core/dbio/api/spec.go:776-831 | no endpoint is in two groups |
| StateOrder.RenderOrder.constructor | core/dbio/api/spec.go:963-968 | the state to start from, for any order of the keys |
| StateOrder.RenderOrder.AddAndRemove | core/dbio/api/spec.go:970-977 | appends a key once and takes it off the remaining ones |
| StateOrder.RenderOrder.ProcessVar | core/dbio/api/spec.go:979-1020 | always terminates; puts a key behind everything it refers to, or reports a real reference cycle |
| StateOrder.RenderOrder.Determine | core/dbio/api/spec.go:963-1031 | succeeds if and only if no references run in a circle, and then lists every state key and every key referred to once, each after what it refers to |
| Upsert.DeleteInsertUpserts | core/dbio/templates/base.yaml:77-84 | delete-and-insert leaves, for every key, the loaded rows or else the old ones |
| Upsert.UpdateInsertUpserts | core/dbio/templates/base.yaml:70-75 | so does MERGE on a table with a proper key, when it does not refuse |
| Upsert.InsertKeepsOld | core/dbio/templates/base.yaml:57-62 | insert-only never changes or loses an old row |
| Upsert.UpsertsAgree | core/dbio/templates/base.yaml:70-84 | the two upserting strategies leave the same multiset of rows |
| Upsert.AmbiguousIs | core/dbio/templates/base.yaml:70-75 | MERGE refuses exactly when an old row has two loaded rows to take |
| Warehouse.Database.Begin | core/dbio/database/database.go:1244-1258 | a transaction starts from the committed tables |
| Warehouse.Database.Commit | core/dbio/database/database.go:1261-1282 | commits all or, on any failure, nothing, and ends the transaction; without one it does nothing |
| Warehouse.Database.Rollback | core/dbio/database/database.go:1285-1295 | ends the transaction and leaves the committed tables |
| Warehouse.Database.DropTable | core/dbio/database/database.go:2081-2098 | a missing table counts as dropped |
| Warehouse.Database.CreateTableIfNotExists | core/sling/task_func.go:57-88 | creates an empty table exactly if there is none |
| Warehouse.Database.TruncateTable | core/dbio/database/database.go:4227-4238 | empties a table, which must exist |
| LoadProtocol.DropTemp | core/sling/task_run_write.go:244-262 | nothing but the temporary table changes, and it is gone |
| LoadProtocol.LoadTemp | core/sling/task_run_write.go:303-386 | nothing but the temporary table changes, on success it holds exactly the rows that arrived, and the transaction is left open exactly if the import cannot be configured |
| LoadProtocol.CheckCount | core/sling/task_run_write.go:388-414 | passing means that the reported and the counted rows agree, where the database can count |
| LoadProtocol.PrepareFinal | core/sling/task_run_write.go:1027-1107 | inside the transaction the target becomes empty for unchunked full-refresh and truncate, else it keeps its rows, and it exists |
| LoadProtocol.MergeData | core/sling/task_run_write.go:1109-1144 | inside the transaction the loaded rows are added, or merged by key, by mode |
| LoadProtocol.FinalWrite | core/sling/task_run_write.go:443-487 | either exactly the mode's result is committed, or the committed tables are as before |
| LoadProtocol.DefineOnly | core/sling/task_run_write.go:272-300 | leaves an empty target, or the old table exactly when the drop fails; without a failing statement it succeeds |
| LoadProtocol.ChunksAppend | core/sling/config.go:298-314 | a full refresh or truncate with any of the three chunk settings adds its rows to what is there, and starts from an empty target without them |
| LoadProtocol.WriteToDb | core/sling/task_run_write.go:167-508 | for every choice of failing statements: nothing but the temporary table changes before the final commit, exactly the mode's result appears with it, and counts agree; a transaction is left open exactly if the import cannot be configured; if nothing up to the commit fails, it ends in the post-SQL error, else the stream's, else none |
| LoadProtocol.ConfigureFails | core/sling/task_run_write.go:342-354 | for any tables a load of which only this statement fails ends with its transaction open |
| LoadProtocol.StreamFails | core/sling/task_run_write.go:498-502 | a load of which no statement fails and whose stream has an error takes effect and returns the error |
| LoadProtocol.PostSqlFails | core/sling/task_run_write.go:492-496 | a load of which only post-SQL fails takes effect and returns that error |
| LoadProtocol.ReadersSeeOldOrNew | core/sling/task_run_write.go:443-487 | at every point of a load that takes effect other connections see the old target or the whole result, and no other table changed |
| LoadProtocol.InsertedRows | core/sling/task_run_write.go:1035-1060 | loaded rows exactly for unchunked full-refresh and truncate, old plus loaded rows for the other inserting modes |
| LoadProtocol.KeyedRows | core/sling/task_run_write.go:1109-1144 | keyed incremental and backfill: for every key the loaded rows, or the old ones where none was loaded; a table that did not exist had none |
| ReplicationRun.ClearTableForChunkLoad | core/sling/config.go:321-343 | empties the target of a chunked full-refresh or truncate and nothing else; it fails exactly if a statement does or a truncated table does not exist |
| ReplicationRun.RunTask | cmd/sling/sling_run.go:739-753 | one task leaves exactly the mode's result in its target if it commits, what was there otherwise, and touches no third table; a load that can be written commits where no statement fails, and succeeds if its stream did |
| ReplicationRun.Run | cmd/sling/sling_run.go:707-754 | turn by turn, for any failures and interruption: an interrupt or a failing clear ends the run, a target of chunks is cleared right before its first chunk, and every task reached that is not disabled runs; it succeeds if and only if no clear and no task failed; each table of chunks holds its old rows until cleared, and then the rows of the committed chunks |
| ReplicationRun.NoneFails | cmd/sling/sling_run.go:707-754 | where no statement fails and all streams can be written, all tasks succeed, and only the truncate of a missing table ends the run |
| ReplicationRun.CleanRun | cmd/sling/sling_run.go:707-754 | such a run succeeds, and each table of chunks holds exactly the multiset union of the rows its chunks brought |
| ReplicationRun.DisabledStillCleared | cmd/sling/sling_run.go:715-732 | a table all of whose chunks are disabled ends up empty |
| PipelineRun.Pipeline.ExecuteStep | core/sling/pipeline.go:321-418 | a skipped step makes no attempt; any other is tried again exactly if its first attempt ends in an error whose rule is to retry and its context has not been retried, and its status is read off the last attempt |
| PipelineRun.Pipeline.Execute | core/sling/pipeline.go:199-282 | every run is a chain of visits in which a step is skipped exactly after a failure or on cancellation and else executed with the outcomes that come next; no context is retried twice; it returns the first error; only an endless chain of gotos without any failure goes on |
| PipelineRun.OneRun | core/sling/pipeline.go:199-282 | the steps, their outcomes and the cancellation determine the run |
| PipelineRun.AfterTrouble | core/sling/pipeline.go:254-264 | after the first failure the later steps are visited one by one, in order, each skipped, and no goto is followed |
| PipelineRun.TroubleEnds | core/sling/pipeline.go:254-264 | such a run ends after exactly the steps that are left |
| PipelineRun.FirstErrorIs | core/sling/pipeline.go:212-281 | the error returned is that of the first visit in trouble |
| StreamList.Replication.AddStream | core/sling/replication.go:942-956 | key in the map, with a copy of the configuration, and at the end of the list |
| StreamList.Replication.DeleteStream | core/sling/replication.go:958-963 | key out of the map and of the list |
| StreamList.Replication.FindPatterns | core/sling/replication.go:312-348 | exactly the wildcards to expand, by their own or the default setting; the others that go to one target are marked as single; `*` alone is an error |
| StreamList.Replication.AddMatches | core/sling/replication.go:384-440 | adds exactly the matches whose names no stream has, each once |
| StreamList.Replication.ExpandWildcards | core/sling/replication.go:376-522 | list and map agree afterwards, each pattern is replaced in place by its new matches, other streams keep their configuration and new ones have their pattern's |
| StreamList.Replication.ProcessWildcards | core/sling/replication.go:301-525 | the same from the streams alone, for any outcome of discovery; it fails if and only if a lone star is to be expanded or the matches of a pattern cannot be told, and the list is then as it was |
| StreamList.ExpandKeepsOrder | core/sling/replication.go:376-522 | streams that are no patterns keep their relative order |
| StreamList.WildcardIs | core/sling/replication.go:308-348 | which streams are expanded and which are marked, by their name and their own or the default setting |
| StreamList.FreshOne | core/sling/replication.go:384-440 | when a match becomes a stream, and under which of its two names |
| StreamList.Replication.ProcessChunks | core/sling/replication.go:746-937 | fails exactly on a name that is no table, before any change; else each chunked stream is replaced in place by its chunks, and list and map agree afterwards if and only if the chunked streams have different prefixes and no chunk takes the name of a stream but one chunked earlier; then each chunk has exactly its own settings, and each stream that is not chunked those it had |
| StreamChunks.AgreesIff | core/sling/replication.go:916-937 | that condition, for any list, dialect and plans |
| StreamChunks.SplitKeepsOrder | core/sling/replication.go:916-937 | streams that are not chunked keep their relative order |
| StreamChunks.ChunkNamesDiffer | core/sling/replication.go:866-870 | chunk names tell prefix and number apart, for any number of chunks |
| TableNames.ParseTableName | core/dbio/database/schemata.go:999-1089 | the loop over the characters reads quoted and plain words as specified, or takes the text as a query |
| TableNames.WordsParsed | core/dbio/database/schemata.go:999-1089 | what any number of plain words with dots between them name, in any dialect |
| TableNames.TwoSpellings | core/dbio/database/schemata.go:999-1089 | a plain schema.table and the quoted words the dialect makes of it are one table with one full name |
| StreamChunks.SameTableTwice | core/sling/replication.go:866-870 | a table listed under both spellings, chunked twice: list and map no longer agree, in every dialect with quotes |
| Secrets.GeneratedName | core/dbio/connection/connection_props.go:38-62 | a generated name is a proper variable name exactly if the connection's name does not start with a digit |
| Secrets.RefNameOf | core/env/envfile.go:668-679 | a text built as a reference is recognized exactly if its name is proper |
| Secrets.LiteralIs | core/dbio/connection/connection_props.go:218-231 | a string or another scalar is a literal exactly if, without the space around it, it is neither empty nor one whole reference; nil and nested maps are none |
| Secrets.Promotion.Reference | core/dbio/connection/connection_props.go:82-88 | one literal becomes the reference on disk that expands to it, or one to a variable set to it |
| Secrets.Promotion.PromoteFields | core/dbio/connection/connection_props.go:77-89 | the loop over the fields makes exactly the planned changes |
| Secrets.Promotion.PromoteLiteralSecrets | core/dbio/connection/connection_props.go:72-116 | top-level and nested secrets, with the fallback to the path when a name is taken |
| Secrets.Promotion.RejectLiteralSecrets | core/dbio/connection/connection_props.go:185-216 | accepts exactly if the nested maps given as text parse and then no secret field holds a literal |
| Secrets.ReadNormalized | core/dbio/connection/connection_props.go:161-181 | normalized properties are read as they are, and what is read is normalized |
| Secrets.PromotedAccepted | core/dbio/connection/connection_props.go:72-116 | exactly when promoted properties have no literal left: by the connection's name, the references on disk and the way the nested map is held |
| Secrets.NormalizedStays | core/dbio/connection/connection_props.go:161-181 | promotion keeps normalized properties normalized |
| SecretRecovery.SecretsRecovered | core/dbio/connection/connection_props.go:64-116 | exactly when every promoted secret expands to what it was, over the environment and the variables to be written |
| SecretRecovery.SecretKeysSanitized | core/dbio/connection/connection_props.go:38-57 | different secret fields never share a variable |
| SecretNames.RecoveredExactly | core/dbio/connection/connection_props.go:64-116 | told from the secrets themselves, with the fallback of a nested one to its path when its name is taken: all are recovered if and only if secrets that get one variable have one text, and the variable of each kept reference is set to its secret's text or not at all |
| SecretNames.PlanIs | core/dbio/connection/connection_props.go:77-113 | promotion makes exactly one kind of change for each literal: it keeps the reference on disk, or writes the variable of its key or, for a nested key whose name is taken, of its path |
| SecretNames.RecoveredByKeys | core/dbio/connection/connection_props.go:64-116 | all are recovered when the sanitized names of the nested ones that need a variable differ from each other and from those of fields at the top, are not taken by the updates, and no kept reference is to a variable that is set |
| SecretRecovery.ThreeSpellings | core/dbio/connection/connection_props.go:106-113 | nested secrets "a-b", "a.b" and "a_b" are not all recovered |
| LogRing.LogBuffer.Start | core/env/logbuffer.go:46-52 | an empty ring that records |
| LogRing.LogBuffer.Stop | core/env/logbuffer.go:55-61 | recording ends and the lines are dropped |
| LogRing.LogBuffer.Capture | core/env/logbuffer.go:180-204 | the ring follows the plain list of all lines taken, blank ones left out |
| LogRing.LogBuffer.At | core/env/logbuffer.go:94-99 | the i-th line of the tail, across the wrap |
| LogRing.LogBuffer.Recent | core/env/logbuffer.go:64-91 | the last lines that fit, oldest first, joined by newlines |
| LogRing.RunOps | core/env/logbuffer.go:46-204 | for every capacity and every sequence of operations the text is that of the last lines captured since the last Start |

## Left out

- EnvEditor.EnvFileEditor.Set: refuses to update an entry that stands inside a flow mapping `connections: {...}`, where the code writes its line again and leaves the rest to the comparison; `Delete` and `Rename` refuse it as well.
- SaveBoth.Update: covers an entry and an env block that are both block mappings; `EnvSplice.SetPlanLate`, `EnvText.SetText` and `EnvText.NewBlockText` say what one save makes of the others.
- MappingUpdate.MappingEdit.SetScalar: the tests on a scalar's anchor, quoting and style are an arbitrary function of its line.
- FileText.BytesExact: speaks of texts that need no repair; the repair of tabs and odd spacing before loading changes the text on purpose.
- Warehouse.Database.DropTable: rolls back with the transaction, as do create and truncate; on databases whose DDL commits by itself, what `LoadProtocol.FinalWrite` and `LoadProtocol.WriteToDb` say of a failed load does not follow.
- Warehouse.Database.CreateTableIfNotExists: leaves out the generation of DDL; a created table is empty.
- LoadProtocol.WriteToDb: assumes a configured temporary table other than the target, and leaves out empty-column streams, direct writes, schema attributes, the StarRocks count exception and Iceberg's table swap; hooks, pre-SQL and post-SQL may fail but do not touch the two tables.
- LoadProtocol.MergeData: merge strategies other than insert, update-insert and delete-insert, among them change capture, are an arbitrary function of the two tables; without a key a merge fails.
- ReplicationRun.Run: leaves out the start and end hooks, whose errors make a run fail too, and threads other than by skipping the clears.
- ReplicationRun.RunTask: opens its own connection, so a transaction left open by a failed task is lost.
- PipelineRun.Pipeline.Execute: stops after a given number of followed gotos, since a pipeline may loop for ever; the statements hold for every number.
- StreamList.Replication.ProcessWildcards: covers database and file sources; API sources change the list in other ways.
- StreamList.Replication.ProcessChunks: starts from the settings of each chunk; how ranges and expressions are cut, and their errors, come before any change.
- LogRing.LogBuffer.Capture: the rendering of a line, with its colours stripped, is an arbitrary function.
- Secrets.Promotion.RejectLiteralSecrets: parsing of maps given as text is an arbitrary function.
- The YAML parser, encoder and renderer, anchors, merge keys, a file whose top-level mapping is in flow form, several documents in a file, and `#` lines in literal blocks.
- File access (`Save`, atomic writes, checksums of the body), clocks, goroutines, progress, telemetry and log files.
- `validateQueueProducers`: each endpoint is looked at by itself.
- The fallback rendering of a whole env file around `mergeNode`, and complex YAML keys.
- Drivers, checksums and schema migration of real databases, and ambiguous commits whose outcome the driver cannot tell.
