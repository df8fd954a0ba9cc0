# Verification models

Dafny models of the repository's section engine, steer spool, stdio bridge and four smaller state machines, with
proofs of what each promises over every text, every call and every run. `dafny verify dfyconfig.toml` checks all of it.

## What is modelled

**Markdown sections** (`libs/markdown_sections.py`, `markdown_fence.py`, `markdown_xml_blocks.py`). `Text` gives
Python's `splitlines` and `strip`. `MarkdownFence` is the fence automaton, whose openers follow section 4.5 of
CommonMark except that a fence closes only at a line of exactly its own length. `Outline` splits a text into
a preamble and blocks, one per heading, and shows that texts and well-formed outlines correspond one to one. `Sections` is
the section list (offsets, levels, escaped paths) computed from the outline, and `Parser` is the one-pass loop with
its path stack, proved to return exactly that list. `Nesting` compares the two nestings (path stack and ranges).
`Splice`, `Edits`, `DeletePreamble`, `Replace`, `ReplaceReparse`, `StripHeading`, `Insert`, `InsertReparse`, `Append` and `AppendReparse` say what
re-parsing an edited text gives; `HeadingText` and `EditWitnesses` hold the exact condition on heading texts and the texts at
which an edit does not read back. `XmlBlocks` is the nested scan for XML blocks. `DictTree` and `DictRoundTrip` are
the dictionary printer and reader. `TextPins`, `FenceText`, `SectionPins`, `EditPins`, `XmlPins` and `DictPins` fix the line-level rules
these rest on, character by character: which lines are fences, headings and tags, what is hidden, escaped, padded and printed.

**Steer spool** (`scripts/mcp_bridge_steer_inject.py`). `Spool` has the three buckets, the operations as functions, and a
class whose methods loop over the buckets as the code does. `SpoolRuns` proves conservation, order and distinctness over
every run of operations; `SpoolInherit` and `ResumeChain` treat inheritance along a chain of resumed dispatches.
`SpoolLock` is the machine of many processes at the grain of lock, load, stage and `os.replace`, `SpoolRefinement`
proves that it refines the atomic operations, `SpoolBusy` that refused non-blocking calls leave no trace, and `SpoolHandover`
that an inherit loses nothing between its two locks, and `SpoolSolo` that a call that meets no other gets its work done.

**Bridge** (`scripts/mcp_bridge_contract_filter.py`, `mcp_bridge_generate_ledger.py`). `Relay`, `RelayEnvelopes` and `EnvelopeFate` are the
two relay threads with the shared request table and the spool, interleaved with other processes; `RelayTable` says which results
take a row. `Ledger`, `LedgerRuns` and `LedgerPins` are the observer that records fired generates and received replies.

**Smaller machines.** `WaitLoop`, `Reactor`, `ReactorRuns`, `ReactorPins` and `ReactorRestart`: the hop reactor's wait loop, its
cycles, and its state file. `WaylandWire` and `WirePins`: the wire codec and the frame splitter. `Reclaim`, `ReclaimRuns` and
`ReclaimPins`: the worktree reclaimer over an abstract repository.

Replies of other services, clocks, generated ids and the outcomes of git commands are parameters: every theorem
holds for all of them.

## Findings

Where the code does not do what one would expect, a lemma gives the case and, where possible, the exact condition.

- Deleting a section re-parses to the rest of the list exactly when no earlier heading that ends in another line break
  than a newline takes its newline from the deleted part (`Edits.DeleteReparse`); `EditWitnesses.DeleteMovesStart` is a text where one does.
- A heading on the last line without a line end is glued to a new body: the body reads back only when it is empty
  (`ReplaceReparse.ReplaceUnterminated`; `EditWitnesses.ReplaceGluesBody` is such a text).
- A heading text survives writing and parsing exactly when it is stripped, not empty, not ended by a closing `#` run, and free
  of line breaks (`HeadingText.HeadingReadsBack`); `HeadingText.ClosingRunDropped` and `HeadingText.BrokenHeadingCut` show two that do not.
- A resume chain keeps every directive whose authority id is not reused for another directive and is not deposited into a link already resumed
  (`ResumeChain.NoDirectiveLost`). Neither condition can be dropped: for any two directives of one authority some chain loses the
  second (`ResumeChain.ReusedAuthorityLosesDirective`), and a late deposit stays behind (`ResumeChain.LateDepositStaysBehind`). Into a fresh child
  exactly the first eligible directive of an authority survives (`ResumeChain.ResumeKeepsFirst`).
- A row the bridge marks delivered is in exactly one relayed frame, or in none: the latter exactly when content block 0 of the
  one result it was taken for is not an object (`EnvelopeFate.MarkedRowFate`, `EnvelopeFate.LostEnvelope`).
- A caller id the model chose reaches the server exactly on `team_dispatch` calls made while stamping is on that do not resume, do not
  generate, or have no dispatch id to stamp (`Relay.ForwardedCallers`).
- A wait is reported as "harvest_unreachable" exactly when it ends in five failures in a row and either the last poll is unanswered or
  fewer than five polls count as idle (`WaitLoop.UnreachableIff`, `WaitLoop.FiveFailures`); five failing answers on an empty lane therefore
  end as "idle" (`WaitLoop.FailingHarvestsLookIdle`).
- With distinct sanitised names every removed lane's HEAD is held; two names that sanitise alike can leave a HEAD held by no ref
  (`ReclaimRuns.RemovedHeadsHeld`, `ReclaimRuns.CollisionLosesHead`). Uncommitted work is held exactly when `git add` succeeded or all of the work
  was staged (`ReclaimRuns.WorkHeldIff`, `ReclaimRuns.FailedAddLosesWork`).
- The state file's queue is current after a night cycle exactly when the cycle returned at once, had nothing to move, or placed its
  prompt (`ReactorRestart.FileCurrentIff`). Otherwise a restart fires the same tasks again, even beyond their budget
  (`ReactorRestart.RestartFiresAgain`, `ReactorRestart.RestartOverspends`).
- The Wayland frame splitter runs forever exactly when it reaches, over complete frames, a complete header whose size field is 0
  (`WaylandWire.HungIff`, `WaylandWire.HungForever`, `WaylandWire.ZeroSizeHangs`); the model reports such a stream as `Hung`.

## Model

| member | source | states |
|---|---|---|
| Text.SplitSeam | libs/markdown_sections.py:66 | `splitlines` distributes over a concatenation at a line boundary |
| Text.CutAt | libs/markdown_sections.py:39-40 | the offset of line k cuts the text into exactly the lines before and after it |
| TextPins.LinesAre | libs/markdown_sections.py:66 | the lines make up the text, each is one line, and each but the last is ended |
| TextPins.HeadingRead | libs/markdown_sections.py:22-97 | `#`s, blanks, a text, an optional closing run and blanks read as that text at that level |
| MarkdownFence.FenceLine | libs/markdown_sections.py:75-92 | one step of the fence scan yields the automaton's next state and shows a line only outside fences |
| MarkdownFence.InkIsNotFence | libs/markdown_fence.py:14-38 | a line whose first ink is `#` or `<` never opens or closes a fence |
| FenceText.FenceOpens | libs/markdown_fence.py:14-38 | a run of n backticks or tildes and a word open a fence of length n if n is three or more, and nothing otherwise |
| FenceText.OpensOnlySo | libs/markdown_fence.py:32-38 | and no other line opens one |
| FenceText.FenceCloses | libs/markdown_fence.py:22-24 | inside a fence exactly a line of its own run closes it, and any other line leaves it as it is |
| FenceText.FencedTextHidden | libs/markdown_sections.py:75-92 | in a text a fenced block, closed or running to the end, hides the headings in it and no others |
| HeadingText.HeadingReadsBack | libs/markdown_sections.py:22-97 | a written heading is read back by the parser as itself, and as nothing else, if and only if its text is stripped, not empty, not ended by a closing run and free of line breaks |
| HeadingText.HeadsUnbroken | libs/markdown_sections.py:66-97 | no heading the parser reads holds a line break |
| HeadingText.BrokenHeadingCut | libs/markdown_sections.py:66-97 | a heading with a line break is cut there |
| HeadingText.ClosingRunDropped | libs/markdown_sections.py:22 | a heading ended by a `#` run loses the run |
| Outline.OutlineRoundTrip | libs/markdown_sections.py:74-117 | every well-formed outline is the outline of its own lines |
| Outline.LinesOfOutline | libs/markdown_sections.py:74-117 | no line is lost or moved by outlining |
| Parser.ScanHeadings | libs/markdown_sections.py:74-117 | the scanning loop returns every section of the document in order, each still running to the end of the text |
| Parser.AddHeading | libs/markdown_sections.py:94-116 | one heading line pops the path stack to its parents, extends it and yields the section with its escaped path |
| Parser.FindEnd | libs/markdown_sections.py:119-123 | the inner loop finds the offset of the next heading that is not deeper |
| Parser.ParseSections | libs/markdown_sections.py:64-132 | the one-pass parser returns exactly the section list of the outline, preamble first |
| SectionPins.PageRead | libs/markdown_sections.py:64-132 | the section list of a document with a preamble, a subsection and a slash in a heading, written out |
| SectionPins.CharsAre | libs/markdown_sections.py:119-128 | a section counts exactly the characters that reading it gives, none when its start lies behind its end |
| Nesting.AncestorIffInside | libs/markdown_sections.py:98-104 | section i is an ancestor of section j exactly when j begins before the block where i ends |
| Nesting.PathSpellsAncestors | libs/markdown_sections.py:98-104 | a path spells the escaped headings of the ancestors, outermost first, then the section's own |
| SectionPins.SlashesEscaped | libs/markdown_sections.py:98-104 | in a path exactly the slashes of a heading get a backslash before them |
| SectionPins.PathJoins | libs/markdown_sections.py:98-104 | and a slash stands between any two headings |
| Nesting.NestingsAgree | libs/markdown_sections.py:98-128 | i is on j's path stack exactly when j's heading line lies before i's end; ranges are nested or disjoint |
| Nesting.RootsTileText | libs/markdown_sections.py:119-128 | the preamble and the root sections tile the text, each character once and in order |
| Splice.StackAfterCut | libs/markdown_sections.py:98-104 | after cutting a closed run of sections, every later heading sees the path stack it saw before |
| Splice.EndAfterCut | libs/markdown_sections.py:119-123 | where a kept section ends after the cut |
| Edits.SubtreeIsDeeper | libs/markdown_sections.py:119-123 | a section's range holds exactly the following sections that are deeper |
| Edits.DeleteOutline | libs/markdown_sections.py:383-391 | deleting a section removes exactly its block and those of its descendants from the outline |
| Edits.DeleteReparse | libs/markdown_sections.py:383-391 | re-parsing gives the old list without the section and its descendants, later positions shifted by the cut, if and only if the cut is clean |
| EditWitnesses.DeleteMovesStart | libs/markdown_sections.py:105-106 | a text whose second section cannot be deleted cleanly: the first one's start moves |
| DeletePreamble.DeletePreambleReparse | libs/markdown_sections.py:387-388 | deleting the preamble keeps every heading, level and path, everything shifted by its length |
| StripHeading.OwnHeadingDropped | libs/markdown_sections.py:236-248 | a body that repeats the section's heading, after blank lines at most, loses exactly that line and what is before it |
| StripHeading.HeadingDroppedIff | libs/markdown_sections.py:236-249 | for every body: a heading is dropped if and only if the body opens, after blank lines at most, with the section's own heading, and any other body is kept whole |
| Replace.ReplaceOutline | libs/markdown_sections.py:285-298 | replacing exchanges the section's body lines, drops its descendants and leaves every other block |
| ReplaceReparse.ReplaceKeepsList | libs/markdown_sections.py:293-298 | re-parsing gives the old list without the section's descendants: same headings, levels, paths, positions shifted |
| ReplaceReparse.ReplaceReadsBack | libs/markdown_sections.py:232-298 | the section reads as the padded body; all text before its start and after its end is unchanged |
| EditPins.PaddingIs | libs/markdown_sections.py:285-291 | a body that is set is ended and has a blank line after it when text follows; an empty one stays empty |
| ReplaceReparse.ReplaceIdempotent | libs/markdown_sections.py:293-298 | replacing again with the same content changes nothing |
| ReplaceReparse.ReplaceUnterminated | libs/markdown_sections.py:285-291 | with an unterminated heading line the body reads back if and only if it is empty |
| EditWitnesses.ReplaceGluesBody | libs/markdown_sections.py:285-291 | a one-line document whose heading swallows the new body |
| ReplaceReparse.ReplaceByPath | libs/markdown_sections.py:148-157 | a section found by its full path is found by it again after the replacement and reads the padded body |
| EditPins.ResolvedIff | libs/markdown_sections.py:144-162 | a section is found by its path exactly when no other has it; a path two have is ambiguous |
| Insert.CrlfKeepsHeads | libs/markdown_sections.py:361-362 | converting a body to the document's CRLF line ends changes none of its headings and fences |
| Insert.PairsAreHeads | libs/markdown_sections.py:95-116 | the (level, heading) pairs of the section list are the headings read line by line |
| Insert.InsertAddsOneHeading | libs/markdown_sections.py:338-381 | inserting a valid heading with a plain body keeps every (level, heading) pair in order and adds one at the chosen place, in either line-ending style |
| InsertReparse.InsertReadsBack | libs/markdown_sections.py:359-381 | the new section has that heading and level and reads its body in the document's line ending; all old text is kept around it, with at most two line ends of padding |
| EditPins.CrlfDocument | libs/markdown_sections.py:255-256 | a document counts as CRLF exactly when a carriage return and newline stand somewhere in it |
| EditPins.InsertedBodyIs | libs/markdown_sections.py:357-365 | a body is converted exactly when the document is in CRLF and the body is not, and is ended |
| EditPins.BlankBefore | libs/markdown_sections.py:258-265 | at most two line ends are added before the heading, none when a blank line is there or the document opens with it |
| EditPins.BlankAfter | libs/markdown_sections.py:267-270 | one line end is added after the section when text follows without a blank line |
| EditPins.PositionsAre | libs/markdown_sections.py:367-375 | the new section goes behind everything, behind the anchor with its descendants, or before its heading line |
| Append.AppendKeepsHeads | libs/markdown_sections.py:328-336 | appending a plain fragment changes no heading of the document |
| Append.AppendKeepsPaths | libs/markdown_sections.py:328-336 | nor any level or path of the section list |
| AppendReparse.AppendReadsBack | libs/markdown_sections.py:328-336 | the section then reads its old body, its last line ended, followed by the fragment; the text around it is unchanged |
| XmlBlocks.FindClose | libs/markdown_xml_blocks.py:82-128 | the inner scan, started afresh after the opening tag, stops at the first matching close outside the document's fences |
| XmlBlocks.ParseXmlBlockSections | libs/markdown_xml_blocks.py:47-131 | the nested scans return the sections of exactly the blocks found with one fence scan, and always advance |
| XmlBlocks.BlocksSound | libs/markdown_xml_blocks.py:75-127 | blocks are ordered, open and close outside fences, and end at their first matching close |
| XmlBlocks.BlocksComplete | libs/markdown_xml_blocks.py:75-130 | no opening tag that is closed later is missed: it lies in a reported block |
| XmlBlocks.XmlScanAgrees | libs/markdown_xml_blocks.py:47-131 | reported sections are pairwise disjoint as text too |
| XmlPins.OpenTagIff | libs/markdown_xml_blocks.py:14-15 | an opening tag is exactly a line of `<`, a name, `>` and blanks |
| XmlPins.CloseTagIff | libs/markdown_xml_blocks.py:14-15 | and a closing tag the same with `</` |
| DictTree.RenderKey | libs/markdown_sections.py:448-465 | appends exactly the printed text of one entry and its children |
| DictTree.PrintDict | libs/markdown_sections.py:433-446 | the printing loop produces the printed text of the dictionary |
| DictTree.BuildDict | libs/markdown_sections.py:406-431 | the recursive fill produces the tree of the section range, in order, a repeated key in place |
| DictRoundTrip.PrintThenRead | libs/markdown_sections.py:393-446 | reading a printed dictionary gives the same keys and nesting in the same order, each text exactly as printed |
| DictRoundTrip.DictRoundTrip | libs/markdown_sections.py:393-465 | for every valid dictionary, printing and reading back is the identity up to stripping each text |
| DictPins.PutReplaces | libs/markdown_sections.py:406-431 | a key already there keeps its place and takes the new value |
| DictPins.PutAppends | libs/markdown_sections.py:406-431 | a new key goes to the end |
| DictPins.HeadlessText | libs/markdown_sections.py:393-405 | a text without headings, blank or not, reads as one preamble entry that holds all of it |
| DictPins.TreePrinted | libs/markdown_sections.py:433-465 | the printed text of a dictionary with a preamble, a node with own text and a leaf, written out |
| DictPins.TreeReadsBack | libs/markdown_sections.py:393-465 | and that text read back, each text stripped |
| DictPins.SixLevels | libs/markdown_sections.py:22 | the round trip covers headings at each of the six levels, and no others |
| Spool.FirstClaimable | scripts/mcp_bridge_steer_inject.py:248-252 | the first row that is unclaimed and due, none before it |
| Spool.SpoolFile.ClaimPending | scripts/mcp_bridge_steer_inject.py:238-259 | flags the oldest claimable row in the file, or leaves the file as it is |
| Spool.SpoolFile.MarkDelivered | scripts/mcp_bridge_steer_inject.py:308-333 | moves the first pending row with the entry id to delivered and keeps the others in order |
| Spool.SpoolFile.ConsumeNext | scripts/mcp_bridge_steer_inject.py:336-380 | claims and marks one row in one go; nothing for an ended dispatch or a missing file |
| Spool.SpoolFile.ExpirePending | scripts/mcp_bridge_steer_inject.py:483-522 | moves every pending row to expired, in order, and returns the moved rows |
| Spool.SpoolFile.AppendEntry | scripts/mcp_bridge_steer_inject.py:572-612 | adds one fresh row unless the authority is pending, and returns the id it is pending under |
| Spool.SpoolFile.InheritFrom | scripts/mcp_bridge_steer_inject.py:422-480 | leaves the parent file, extends child pending by the inherited copies and returns their ids; nothing for blank or equal ids |
| SpoolRuns.ConsumeTakesOldest | scripts/mcp_bridge_steer_inject.py:336-380 | a row is consumed exactly when the dispatch has not ended and one is due (unclaimed and, unless the dispatch is live, no older than a positive ttl, in arithmetic), and it is the oldest such row |
| SpoolRuns.ClaimFlagsOldest | scripts/mcp_bridge_steer_inject.py:218-259 | a claim flags exactly that row and changes nothing else |
| SpoolRuns.StepConserves | scripts/mcp_bridge_steer_inject.py:218-612 | every operation keeps the rows held, adds what it deposits, and never shrinks delivered or expired |
| SpoolRuns.RunConserves | scripts/mcp_bridge_steer_inject.py:218-612 | over every run: rows held are the initial and the deposited ones, each as often |
| SpoolRuns.FreshRowsHeldOnce | scripts/mcp_bridge_steer_inject.py:218-612 | with fresh entry ids each deposited row is in exactly one bucket, exactly once |
| SpoolRuns.SpoolIsFifo | scripts/mcp_bridge_steer_inject.py:336-380 | under deposits and live consumption, delivered followed by pending is the deposit order |
| SpoolRuns.RunDistinct | scripts/mcp_bridge_steer_inject.py:456-476 | pending authority ids stay pairwise distinct in every run |
| SpoolInherit.InheritAdds | scripts/mcp_bridge_steer_inject.py:450-476 | child pending grows by exactly one copy of the first eligible row of each authority new to the child, in order |
| SpoolInherit.EligibleIs | scripts/mcp_bridge_steer_inject.py:400-419 | eligible are, in this order, the pending rows with text and the expired ones with text whose authority was never delivered |
| SpoolInherit.EligibleOwed | scripts/mcp_bridge_steer_inject.py:400-419 | an authority is eligible exactly when a row with text is pending, or expired and the authority never delivered |
| SpoolInherit.RunKnown | scripts/mcp_bridge_steer_inject.py:383-389 | an authority once known to a spool stays known |
| SpoolInherit.InheritTwice | scripts/mcp_bridge_steer_inject.py:422-480 | repeating an inherit adds nothing, whatever the child did and whatever the parent claimed, delivered or expired in between |
| ResumeChain.HandsOn | scripts/mcp_bridge_steer_inject.py:400-419 | a dispatch hands on every non-empty authority with text that it knows and has not delivered |
| ResumeChain.NoDirectiveLost | scripts/mcp_bridge_steer_inject.py:392-522 | along a resume chain of any length every recorded directive whose authority is neither reused nor deposited late is delivered by some dispatch or still on record undelivered in the last; nothing is asked of other authorities |
| ResumeChain.ResumeKeepsFirst | scripts/mcp_bridge_steer_inject.py:455-463 | into a fresh child a directive survives if and only if it is the first eligible one of its authority |
| ResumeChain.ReusedAuthorityLosesDirective | scripts/mcp_bridge_steer_inject.py:410-418 | for any authority and any two different directives there is a chain that loses the second |
| ResumeChain.LateDepositStaysBehind | scripts/mcp_bridge_steer_inject.py:444-480 | a row deposited into a dispatch already resumed is not handed on |
| SpoolHandover.HandoverCompletes | scripts/mcp_bridge_steer_inject.py:444-480 | whatever runs between and around the two locks of an inherit, a call that does not die goes on until the child knows the whole snapshot, and it stays known |
| SpoolHandover.NothingLostBetweenLocks | scripts/mcp_bridge_steer_inject.py:444-480 | every directive on record in the parent when it is read is delivered there, on its way, or known to the child |
| SpoolLock.StepInv | scripts/mcp_bridge_steer_inject.py:94-168 | every step of every process keeps: lock holders exclusive, loaded data current, staged data the operation's result |
| SpoolSolo.SingleCallWorks | scripts/mcp_bridge_steer_inject.py:94-168 | a claim, mark, expiry, deposit or child write that finds its lock free carries its operation out on the file and gives the lock back |
| SpoolSolo.ConsumingCallWorks | scripts/mcp_bridge_steer_inject.py:336-380 | and so does a consuming call |
| SpoolSolo.InheritingCallWorks | scripts/mcp_bridge_steer_inject.py:422-480 | and an inherit over its two locks |
| SpoolRefinement.LocksExclude | scripts/mcp_bridge_steer_inject.py:138-168 | in every reachable world a lock has one holder and a process at most one lock, also while inheriting |
| SpoolBusy.RefusedCallsLeaveNoTrace | scripts/mcp_bridge_steer_inject.py:149-161 | leaving calls that are only refused out of any run gives all files, locks, other processes and operations the same history |
| SpoolBusy.GivesUpAtThird | scripts/mcp_bridge_steer_inject.py:149-161 | whatever the others do in between, such a call is over at its third refusal, not before |
| SpoolRefinement.StepRefines | scripts/mcp_bridge_steer_inject.py:94-108 | a step changes a file only by replacing it with one atomic operation's result on its current contents |
| SpoolRefinement.RunRefines | scripts/mcp_bridge_steer_inject.py:94-168 | whatever the interleaving, a file's contents are those of a sequence of atomic operations |
| SpoolRefinement.ConcurrentRowsHeldOnce | scripts/mcp_bridge_steer_inject.py:94-612 | rows survive every interleaving of any number of processes, each in exactly one bucket |
| SpoolRefinement.AckStays | scripts/mcp_bridge_steer_inject.py:615-629 | an acknowledgement once seen by the unlocked reader is seen, unchanged, at every later moment |
| SpoolRefinement.CallsAreAtomic | scripts/mcp_bridge_steer_inject.py:366-378 | what lock holders see of a file comes from complete calls one after another; only a call that dies between its two writes leaves a bare claim |
| Relay.EachFrameOneWay | scripts/mcp_bridge_contract_filter.py:331-371 | over every interleaving each client frame is forwarded once or refused once, never both, in order |
| Relay.ForwardedCallers | scripts/mcp_bridge_contract_filter.py:265-371 | over every interleaving a forwarded frame is its client frame but for the caller; a `team_dispatch` call names a dispatch other than the bridge's if and only if the client named one and the call is left unstamped |
| RelayTable.TableIsLatest | scripts/mcp_bridge_contract_filter.py:331-371 | in every run the request table holds for each id the method of the last client frame under it that was not refused |
| RelayTable.TakesRowIff | scripts/mcp_bridge_contract_filter.py:145-201 | in every run a result goes on to take a row if and only if the dispatch has an id and it is a good result to such a `tools/call` |
| RelayTable.TakesOldestRow | scripts/mcp_bridge_contract_filter.py:165-176 | it takes the oldest due row, and none exactly when none is due or the dispatch has ended |
| RelayEnvelopes.ServerFramesInOrder | scripts/mcp_bridge_contract_filter.py:179-201 | every server frame is relayed once, in order, changed only by the tool filter and an envelope |
| EnvelopeFate.RelayedFaithfully | scripts/mcp_bridge_contract_filter.py:94-112 | in every run a relayed frame has the id, method, error and error flag it came with, and its tool list with exactly the names outside the allow set gone, order and repetitions kept |
| RelayEnvelopes.ConsumeDelivers | scripts/mcp_bridge_steer_inject.py:366-378 | a consuming call delivers the row whose envelope it returns and no other |
| EnvelopeFate.MarkedRowsTravel | scripts/mcp_bridge_contract_filter.py:165-201 | each mark of a row is in a frame that carries its envelope, in a frame that lost it, or in flight |
| EnvelopeFate.MarkedOnce | scripts/mcp_bridge_steer_inject.py:366-378 | with fresh entry ids the bridge marks each row once at most |
| EnvelopeFate.MarkedRowFate | scripts/mcp_bridge_contract_filter.py:165-201 | with fresh entry ids each marked row was taken for exactly one relayed frame, and its envelope is in one frame if content block 0 of that frame's result is an object, and in none otherwise |
| RelayEnvelopes.CarriersAnswerCalls | scripts/mcp_bridge_contract_filter.py:145-162 | with request ids not reused, a frame that took a row answers a tools/call of this client and no other request |
| EnvelopeFate.EnvelopeLostIff | scripts/mcp_bridge_steer_inject.py:557-569 | in every run a relayed frame carries the envelope of the row taken for it if and only if its result's content block 0 is an object |
| EnvelopeFate.LostEnvelope | scripts/mcp_bridge_steer_inject.py:565-567 | an exchange in which a row is marked delivered and no frame carries it |
| Ledger.KnownIs | scripts/mcp_bridge_generate_ledger.py:407-434 | the known ids are exactly those fired and not received, each once |
| Ledger.GenerateObserver.KnownGenerates | scripts/mcp_bridge_generate_ledger.py:407-434 | the loop over the rows returns the outstanding ids with the latest thread and after-turn of each |
| Ledger.GenerateObserver.OnRequest | scripts/mcp_bridge_generate_ledger.py:348-380 | remembers a generate or receive request under its id |
| Ledger.GenerateObserver.OnResult | scripts/mcp_bridge_generate_ledger.py:382-405 | uses up the pending request and appends what the result is evidence for |
| LedgerPins.GenerateAppends | scripts/mcp_bridge_generate_ledger.py:189-229 | a result paired with a generate request appends its one fire row, with bare thread and after-turn, if and only if the reply is awaited, id and thread are not empty, the payload is not terminal, and agent or substrate is the CDP one |
| LedgerPins.FiresAreBacked | scripts/mcp_bridge_generate_ledger.py:382-405 | every fire row of every run was written by one such result |
| LedgerPins.ResultsArePaired | scripts/mcp_bridge_generate_ledger.py:382-405 | a result uses up the request it names, and without one appends nothing |
| LedgerPins.MentionsMark | scripts/mcp_bridge_generate_ledger.py:305-322 | a get or fetch marks exactly the outstanding ids that some turn of the CDP agent mentions |
| LedgerPins.ReceiveAppends | scripts/mcp_bridge_generate_ledger.py:436-465 | a paired receive result appends one received row for each id it marks, signed with the operation |
| LedgerPins.BareDrops | scripts/mcp_bridge_generate_ledger.py:189-229 | the bus prefix is dropped from a thread name wherever it stands |
| Ledger.GenerateObserver.ReceivedFromWait | scripts/mcp_bridge_generate_ledger.py:253-302 | the wait rule, decided with the maps the observer built, is the rule on the ledger |
| LedgerRuns.WaitCredits | scripts/mcp_bridge_generate_ledger.py:253-302 | a wait marks at most one id, and marks an id if and only if there is evidence: named or alone outstanding, and a turn strictly after its latest after-turn |
| LedgerRuns.RunOk | scripts/mcp_bridge_generate_ledger.py:382-471 | in every run the ledger stays well formed |
| LedgerRuns.ReceivedOnceAfterFire | scripts/mcp_bridge_generate_ledger.py:382-471 | each received row follows a fire row of its id and is the only received row of it |
| LedgerRuns.ReceivedForGood | scripts/mcp_bridge_generate_ledger.py:407-423 | an id once received is never outstanding again, even if fired again |
| LedgerRuns.OwedUntilCredited | scripts/mcp_bridge_generate_ledger.py:407-423 | an outstanding id stays so until a received row of it is appended |
| LedgerRuns.CreditsAreBacked | scripts/mcp_bridge_generate_ledger.py:235-322 | every received row of every run was written by one paired receive result whose state held the evidence |
| WaitLoop.WaitForStreamEnd | scripts/cdp-hop-reactor-night.py:317-361 | the loop with its three counters returns what the turn-by-turn run returns |
| WaitLoop.TerminalIff | scripts/cdp_hop_reactor_wait.py:67-89 | for any limits the end test holds exactly for an honoured stop flag or a long enough idle streak |
| WaitLoop.StreakIsTail | scripts/cdp_hop_reactor_wait.py:157-182 | the idle streak counts the answered polls since the last stream, cursor advance or hold |
| WaitLoop.HoldsAreCounted | scripts/cdp_hop_reactor_wait.py:157-182 | the hold counter is the number of polls that a lane row held since the last stream or cursor advance |
| WaitLoop.CursorIsLast | scripts/cdp-hop-reactor-night.py:317-361 | the cursor a wait compares with is the last one a reply has named |
| WaitLoop.IdleNeedsARun | scripts/cdp-hop-reactor-night.py:348-357 | "idle" is reported only after the required run of such polls |
| WaitLoop.QuietDecreases | scripts/cdp_hop_reactor_wait.py:157-182 | on a quiet poll that does not end the wait the hold, idle and miss budgets decrease lexicographically |
| WaitLoop.QuietWaitEnds | scripts/cdp-hop-reactor-night.py:317-361 | the wait ends within its bound once replies neither stream nor advance |
| WaitLoop.QuietStretchEnds | scripts/cdp-hop-reactor-night.py:317-361 | so a quiet stretch of fixed length ends it wherever it stands |
| WaitLoop.UnreachableIff | scripts/cdp-hop-reactor-night.py:326-359 | a wait is reported as unreachable if and only if it ends in five failures in a row, the last unanswered or fewer than five polls counted as idle |
| WaitLoop.FiveFailures | scripts/cdp-hop-reactor-night.py:326-359 | five failures from the start end the wait, and as unreachable if and only if one of the two holds |
| WaitLoop.FailingHarvestsLookIdle | scripts/cdp_hop_reactor_wait.py:77-78 | five failing answers in a row on an empty lane end as "idle" |
| Reactor.ReactorState.DrainComposerQueue | scripts/cdp-hop-reactor-night.py:297-314 | the loop leaves each queued task fired, kept or dropped as the budget it meets says |
| Reactor.ReactorState.RunCycle | scripts/cdp-hop-reactor-night.py:364-442 | one cycle changes the state as specified and returns its outcome |
| ReactorRuns.DrainKeeps | scripts/cdp-hop-reactor-night.py:297-314 | draining loses no task, drops only on a spent budget and overspends none |
| ReactorRuns.DrainInOrder | scripts/cdp-hop-reactor-night.py:297-314 | kept, fired and dropped tasks are the queue's, each kind in queue order |
| ReactorRuns.ReactorSafety | scripts/cdp-hop-reactor-night.py:364-442 | over all cycles: harvest numbers 1, 2, ... once each, at most the episode count, itself within its limit; no todo over budget; every task accounted for |
| ReactorPins.CycleCounts | scripts/cdp-hop-reactor-night.py:364-442 | a harvest is numbered if and only if the wait ended, the reading is whole, and a prompt was dispatched or the cursor advanced; the episode counts up once the prompt is placed unless that harvest shows neither |
| ReactorPins.CycleReports | scripts/cdp-hop-reactor-night.py:364-442 | when each outcome is reported, in terms of the state met and the replies |
| ReactorPins.SignalsQueued | scripts/cdp_hop_reactor_night.py:141-147 | queueing signals adds exactly those whose todo has budget left, none twice, behind the waiting tasks |
| ReactorPins.HarvestQueues | scripts/cdp-hop-reactor-night.py:434-441 | a harvest that counts queues its signals by night and none by day |
| ReactorRestart.FileCurrentIff | scripts/cdp-hop-reactor-night.py:364-442 | after a cycle the state file's queue and budgets are current if and only if the cycle returned at once, ran by day, had nothing to move, or its launch did not fail, each read off the state and the replies |
| ReactorRestart.RestartFiresAgain | scripts/cdp-hop-reactor-night.py:376-409 | every task fired in any cycle whose launch fails is fired again after a restart that gets the same answers |
| ReactorRestart.RestartOverspends | scripts/cdp-hop-reactor-night.py:376-409 | so a todo with one run left ends up with more runs than its budget |
| WaylandWire.StringReadsBack | scripts/cosmic_focus_window.py:53-62 | a padded string reads back at its offset, and the next offset is its encoded length further |
| WirePins.FrameLayout | scripts/cosmic_focus_window.py:88-91 | object, then opcode in the low and size in the high half-word, little-endian, then the body; refused when the size does not fit |
| WirePins.StringLayout | scripts/cosmic_focus_window.py:53-56 | the length with the final zero, the bytes, and one to four zeros up to a multiple of four |
| WirePins.ShortString | scripts/cosmic_focus_window.py:58-62 | a string cut short reads as what there is of it, and the next offset does not depend on that |
| WirePins.EventNeeds | scripts/cosmic_focus_window.py:115-122 | an event is cut off exactly when its header and as many bytes as it says are there |
| WaylandWire.MessageReadsBack | scripts/cosmic_focus_window.py:136-172 | a message of words and strings reads back by its signature wherever it lies, ending where it ends |
| WaylandWire.Wire.Events | scripts/cosmic_focus_window.py:105-123 | one receive returns the complete frames of the buffer and keeps the rest |
| WaylandWire.SplitSplits | scripts/cosmic_focus_window.py:115-122 | bytes that arrive later never change the events already cut off |
| WaylandWire.ChunkingDoesNotMatter | scripts/cosmic_focus_window.py:105-123 | any chunking of a stream gives the same events and the same leftover |
| WaylandWire.HungIff | scripts/cosmic_focus_window.py:115-122 | the splitter hangs if and only if it reaches, over complete frames, a complete header whose size field is 0 |
| WaylandWire.HungForever | scripts/cosmic_focus_window.py:115-122 | hanging means room for any number of iterations; any other stream has room for at most one per byte |
| WaylandWire.HungForGood | scripts/cosmic_focus_window.py:114-122 | once a stream hangs the splitter, every continuation of it does, after the same events |
| WaylandWire.ZeroSizeHangs | scripts/cosmic_focus_window.py:115-122 | a first header of size 0 hangs the splitter, whatever follows |
| WaylandWire.StreamDelivers | scripts/cosmic_focus_window.py:88-123 | frames sent, the last possibly cut short, arrive unchanged through any chunking |
| Reclaim.SanitizeSuffix | scripts/giw_worktree_reclaim.py:272-279 | any lane name maps to a non-empty suffix of safe characters without two dots in a row |
| ReclaimPins.OtherCharsReplaced | scripts/giw_worktree_reclaim.py:272-279 | without two dots in a row exactly the other characters become underscores, each in its place |
| ReclaimPins.DotsReplaced | scripts/giw_worktree_reclaim.py:272-279 | two dots become one underscore, the leftmost first |
| Reclaim.Worktrees.PinHead | scripts/giw_worktree_reclaim.py:286-300 | points the lane's ref at its HEAD and touches nothing else |
| Reclaim.Worktrees.EvaluateLane | scripts/giw_worktree_reclaim.py:373-612 | one lane is skipped by the first gate that applies, or committed, pinned and removed |
| ReclaimPins.GateReasons | scripts/giw_worktree_reclaim.py:385-450 | which gate stops the lane named "lane-" and t, for each reason exactly when |
| ReclaimPins.RemovedIff | scripts/giw_worktree_reclaim.py:373-612 | a lane is removed exactly when it is executing, open, on its branch or cleared for a mismatch, pinned, and git removes it |
| Reclaim.Worktrees.RunReclaim | scripts/giw_worktree_reclaim.py:630-684 | the loop over lanes and the synthetic rows give the specified repository and rows |
| ReclaimRuns.RemovedHeadsHeld | scripts/giw_worktree_reclaim.py:286-322 | with distinct sanitised names every removed lane's HEAD, with its work in a snapshot, is held by its ref at the end of the run |
| ReclaimRuns.RefsStay | scripts/giw_worktree_reclaim.py:286-322 | no run deletes a ref |
| ReclaimRuns.WorkHeldIff | scripts/giw_worktree_reclaim.py:303-322 | in every run the uncommitted work of a removed lane is held by its ref if and only if `git add` succeeded or all of it was staged |
| ReclaimRuns.ShieldedLanesStay | scripts/giw_worktree_reclaim.py:391-440 | the lanes "lane-11767", "lane-20793" and those of live dispatches stay with their HEAD and work |
| ReclaimRuns.HarmlessRun | scripts/giw_worktree_reclaim.py:407-423 | a dry run, and a run without a readable ledger, change nothing |
| ReclaimRuns.OneRowPerLane | scripts/giw_worktree_reclaim.py:640-684 | each listed, protected or live lane gets exactly one row |
| ReclaimRuns.CollisionLosesHead | scripts/giw_worktree_reclaim.py:272-283 | for any two removable lanes with the same sanitised name there is a run after which no ref holds the first one's HEAD, nor does its branch |
| ReclaimRuns.CollidingNames | scripts/giw_worktree_reclaim.py:274 | such names exist |
| ReclaimRuns.FailedAddLosesWork | scripts/giw_worktree_reclaim.py:310-313 | the return code of `git add` is not looked at: unstaged work is removed without a commit |

## Left out

- The display-path, heading and suffix strategies of `resolve_section` and its XML fallback, and the refusal to edit XML blocks: long case lists.
- `_document_sections`, `list_sections`, `patch_section_body`, `find_duplicate_section_headings`: filters and substring counts over the modelled list.
- Insert anchors that resolve to an XML block or to the preamble: anchors are ATX sections.
- Word characters in fence info strings are ASCII; characters outside a text's line breaks and whitespace are opaque.
- Dictionary values that are neither text nor dictionary, and reserved keys behind other keys.
- Spool rows that are not JSON objects, unreadable spool files and the kill switch: rows are records, a missing file is `None`.
- Dispatch ids that map to one file name: the mapped name stands for the dispatch.
- Reading the dispatch ledger: its answer (ended, alive, unknown) is a parameter, so the window between that answer and the mark is not closed by any theorem.
- EnvelopeFate.MarkedRowFate: later content blocks of a result that gets an envelope are dropped by the code; nothing is claimed for them.
- The client output lock: writing a whole frame is one step of the machine.
- The two refusal rules of the bridge (review gate, conductor descent): their verdict on each frame is arbitrary.
- Rows appended to one ledger by two bridges at once: the observer is alone on its file.
- ReactorRuns.ReactorSafety: cycles of one process, because the state file is not written on every exit; a process killed between writing a harvest and saving may also write that number again.
- The prompt texts, attach polling and composer polling of the reactor: their results are parameters.
- `Wire.roundtrip`, which returns in the middle of a batch, UTF-8 decoding, and the socket.
- Branch refs that move with a snapshot commit, ignored files, lock reconciliation rows, and commits made in a lane by others during the run.
