# Kontor tooling and plugin state: a verified model

This project models the Python release and pack tooling and the plugin's state code of the Kontor
repository, and proves what they are meant to keep. Code that changes state step by step is a class or a
method with loops, proved against a specification; the specification's own properties are lemmas.
`dafny verify dfyconfig.toml` checks everything.

| files | what they model |
|---|---|
| `Files`, `Deploy`, `DeployAlias` | the deploy transaction over regular files and links, a job that runs or not, and single steps that may fail before or after they took effect |
| `YamlReader`, `YamlWriter`, `YamlScalars`, `YamlRows`, `YamlRoundTrip`, `YamlFaults`, `YamlKeys`, `YamlForms`, `YamlDocuments`, `YamlLoops` | the YAML subset reader of `scripts/pack.py` and the independent writer of `scripts/kontor_project.py` |
| `PlanGraph`, `PlanWaves`, `PlanMarkdown`, `PlanSync`, `PlanView`, `PlanLoads`, `PlanParts`, `PlanRewrite`, `PlanClean`, `PlanExample` | the plan graph: waves, cycles, the derived view and its synchronisation |
| `ArchiveRecovery` | list loads and refreshes interleaved with host switches, unmounts and remounts |
| `Navigation`, `RecentSessions` | the bounded back stack and the bounded most-recent-first list |
| `JsText`, `TableCells`, `PlanBlocks`, `PlanForms` | the plan document's block splitter and its declarations |
| `BranchGrammar` | the branch grammar with its refusal codes |
| `Lists`, `OrganizationDraft`, `OrganizationOrder` | the three-way draft merge and the constrained reorder |
| `Closures`, `TestLanes`, `LanesExact`, `PackResources` | the worklists over reverse dependencies and over links |
| `Text`, `TextLines` | the string operations the scripts use |

## What the proofs found

- `scripts/pack.py:172` means to refuse tab indentation but looks only at leading blanks, so it never
  does (`YamlRoundTrip.TokensNeverFail`, with an input in `YamlRoundTrip.TabIndentRead`). The model follows
  the code.
- The comment scanner does not know that a backslash escapes a quote, and the line splitter also splits
  at U+0085, U+2028 and U+2029, which JSON text leaves raw. The round trip is exact with that condition
  (`YamlRoundTrip.RoundTrip`); a string without quotes and without those three is always safe. A string
  that does not survive makes the reader refuse the text; it is never read as another value.
  `YamlRoundTrip.QuoteSignRefused` and `YamlRoundTrip.SeparatorRefused` are such strings.
- The reader does not unquote keys. Where the first key of a mapping, at any depth, is the first one that the
  writer quotes, the text is refused (`YamlKeys.FirstFaultRefused`); from the line of a later key another
  key is read, if any (`YamlKeys.QuotedNotKey`, `YamlKeys.BlankKeyMisread`). A value is read back exactly
  when every key is written without quotes and every string survives (`YamlKeys.RoundTripExactly`).
- Crash atomicity needs that no installed name leads through another. Where one does, by any links, a name
  reads other bytes at exactly the moments of `DeployAlias.AliasedExactly`: while it reads the candidate of
  another name that has neither of its own two images. With the daemon linked to another binary this
  happens only in a rollback (`DeployAlias.AliasedAlways`, with a host in `DeployAlias.AliasedExample`).
- The check of titles admits the markers of the derived view, and sync refuses every plan with such a title
  (`PlanClean.MarkedTitle`).
- A regular file that is restored has mode 0755 and not its old mode (`Deploy.Host.RestoreOne`), so
  restoration is stated for bytes and links.
- A stop that took effect and still raised leaves the job unloaded (`Deploy.Host.StopJob`,
  `Deploy.Host.Attempt`), and the rollback does not start it again, because `stopped` was not set. A start
  that took effect and still raised leaves the candidate running after the old binaries are back; it is the
  only case in which a rollback without further faults does not run the old job (`Deploy.Host.RollBack`).
- A failure to write the receipt after the read-back does not roll back (`Deploy.Host.Replace`).
- Rebasing an unedited draft returns the current settings only when those list no favorite twice
  (`OrganizationDraft.MergedUnedited`). A draft's own edit to the model a new lead starts with is not
  reapplied.
- `classify` does not search again through a package that a plain file selected. What one call selects is
  `LanesExact.SelectedCut`; it is right for every dependency graph exactly under the condition of
  `TestLanes.SettledExactly`, which can be read off the list. For one graph `LanesExact.SelectedExactly`
  says when, following the list file by file, and `LanesExact.MissedPackage` is a list of files for which it
  is not.
- A list with a failed read is shown as complete when the error has no text, because the code tests the text
  (`ArchiveRecovery.SilentFailure`); otherwise completeness is exact (`ArchiveRecovery.LoadWrites`).
- A task whose id holds white space is never found in the plan graph, because the line is compared without any
  (`PlanForms.SpacedIdNotFound`).
- A mapping on the line of a dash goes on two columns right of the dash, however many blanks stand between:
  lines aligned with its first key are refused otherwise (`YamlDocuments.MisalignedRefused`).
- A key without a value reads as null in a block mapping but as the empty text in a flow mapping
  (`YamlDocuments.DocumentReads`, `YamlForms.FlowMapping`), and a key that occurs twice is refused in the one
  and overwritten in the other.
- A heading line that ends in a carriage return is not a heading for `planBlocks`, because `.` does not
  match it (`PlanBlocks.CarriageReturn`).

## Assumptions

- Deploy: staging and generation names differ from binary names by construction; a generation that is
  already there holds the image its 12-digit prefix names; installed links and candidate paths avoid the
  names the deploy changes. What a link says is its target path. The runs with one installed name linked
  to another (`DeployAlias`) copy the candidates and the backups as they are.
- Plan sync: JSON decoding, whether the text of the front matter and that of the task table fit a document,
  and the checks of a graph document other than waves are parameters that depend only on what they are
  given. `PlanWaves.ValidateWaves` starts from what the earlier checks establish: distinct ids, each with
  distinct dependencies and none on itself.
- Archive recovery: each await is one suspension, each event one atomic step; state updates apply in the
  order they are made. `onChanged` does not throw.
- Navigation: a view is its serialised text, and the session view store gives back what was written.
- Recent sessions: encoding and decoding a record are inverse; listeners are counted, not modelled.
- Branch grammar: a type that holds a slash accepts nothing, as in the code.
- Reorder: the distance is a real number or not finite; rounding of floating point is not modelled.
- Test lanes: the roots and the reverse dependencies are given; every package with a root is a node of
  that graph, as `package_graph` builds it.
- Pack resources: reading and resolving links are given for each source path.

## Model

| member | source | states |
|---|---|---|
| `Deploy.Host.Replace` | scripts/kontor-deploy.py:643-736 | after every single file-system step of every run, rollback included, each installed name reads exactly its old bytes or exactly the candidate's, and no name outside the backup directory differs before the realm snapshot is there; the steps run in their order, all of them exactly on success, and a run that stops is rolled back from where its flags say; a refusal changes nothing outside the backup directory and no job; a used backup directory, a missing or wrong expected digest is refused; once the job is to be stopped, the old bytes and links stay in the backup directory; success means that no step failed, installs all three, runs the candidate daemon, leaves the snapshot, and writes a receipt with the digests of the old binaries, the new ones and the snapshot; it is reached whenever no step fails; a completed rollback restores the old bytes or the old link and runs the old daemon; rollback.json and deployment.json are never both written; the error raised is the one that stopped the run, unless the rollback was interrupted or its record not written |
| `Deploy.Host.RollBack` | scripts/kontor-deploy.py:690-720 | a rollback step that fails with a caught error does not stop the later ones; a flag is true exactly when every step of its part returned, in order; the restored flag means every name restored, and with the restarted flag the old daemon runs; the record is written last on every path; with no further fault every due step completes if the job is as the flags say, and the old job runs again exactly unless a start took effect and still raised; in that case the job goes on as it is while the old files come back |
| `Deploy.Host.Attempt` | scripts/kontor-deploy.py:676-689 | the steps from the stop to the read-back run in order, the snapshot before the first installation and the check after each; `stopped`, `installing` and `started` say exactly how many of them returned; before `installing` no installed name was touched, and from then on the snapshot is there; all three are set and no error is raised only if no step failed |
| `Deploy.Host.Undo` | scripts/kontor-deploy.py:690-721 | the rollback and what it raises: the failure that led to it, an interrupt instead if there was one, or the error of writing the record |
| `Deploy.Host.Receive` | scripts/kontor-deploy.py:723-736 | the receipt names the digests of the old binaries, of the candidates and of the snapshot, and is written last |
| `Deploy.Host.InstallAll` | scripts/kontor-deploy.py:683-686 | each binary in order is installed and then compared with its digest |
| `Deploy.Host.StopJob` | scripts/kontor-deploy.py:493-496 | a stop that raises leaves the job unloaded exactly when it took effect |
| `Deploy.Host.Bootstrap` | scripts/kontor-deploy.py:518-520 | a start runs what the daemon's installed name reads; a loaded job is not loaded twice |
| `Deploy.Host.Bootout` | scripts/kontor-deploy.py:513-515 | a stop and then a wait; the job is unloaded exactly when the stop took effect, and only a loaded job counts as stopped |
| `Deploy.Host.Snapshot` | scripts/kontor-deploy.py:523-536 | a snapshot that returns is the realm's, taken now, and a file in the backup directory; nothing else changes and the backups stay |
| `Deploy.Host.Install` | scripts/kontor-deploy.py:599-608 | one installation keeps the invariant at every step, touches only its own five names, and ends with the name holding the candidate: itself for a regular file, through a fresh generation for a link |
| `Deploy.Host.Restore` | scripts/kontor-deploy.py:611-617 | restores every name, a link by its old text and a file with its old bytes, and keeps the invariant at each step |
| `Deploy.Host.RestoreOne` | scripts/kontor-deploy.py:612-617 | a link gets its old text back; a regular file its old bytes, with mode 0755 whatever its mode was; the names restored before stay restored |
| `Deploy.Host.Place` | scripts/kontor-deploy.py:620-624 | at every step, a copy cut short included, the invariant holds; only the target and its staging name differ; on success the target is a file with the source's image, mode 0755 |
| `Deploy.Host.Swing` | scripts/kontor-deploy.py:627-632 | at every step the invariant holds; only the link and its staging name differ, also when an earlier run left that staging name behind; on success the name is a link to the target |
| `Deploy.Host.BackUp` | scripts/kontor-deploy.py:584-596 | saves the image and the link text of every binary, in order, or refuses when one is not installed, and touches only the backup directory; it returns only if no step failed |
| `Deploy.Host.Prepare` | scripts/kontor-deploy.py:652-674 | the checks before the job is stopped, in their order: candidates present, digests as expected, backup directory new, then the backups and their digests; nothing outside the backup directory changes |
| `Deploy.Plan.SaneIsAtomic` | scripts/kontor-deploy.py:599-632 | the invariant kept by every step implies that each installed name reads its old bytes or the candidate's, never less |
| `Deploy.Plan.OldChain` | scripts/kontor-deploy.py:611-617 | a restored link leads, through the same chain, to the same file with the same bytes: the old generation is untouched |
| `Deploy.Plan.InstalledReads` | scripts/kontor-deploy.py:599-608 | a name holding the candidate or a link to its generation reads the candidate |
| `Deploy.LayoutExample` | scripts/kontor-deploy.py:584-617 | a host with three regular files and three candidates meets the layout the deploy theorems ask for |
| `DeployAlias.AliasedExactly` | scripts/kontor-deploy.py:599-632 | where installed names may lead to one another, through any chain of links: at every moment of every run, operation by operation and rollback included, a name reads its old bytes or its candidate exactly when the candidate it reads, if it reads one, has one of these two images |
| `DeployAlias.AliasedAlways` | scripts/kontor-deploy.py:599-632 | every run keeps a name atomic exactly when the candidates of all names it leads through have one of its two images; if the name is installed before all of them, only a rollback can break it |
| `DeployAlias.AliasedApart` | scripts/kontor-deploy.py:599-632 | the layout the deploy theorems ask for excludes that one installed name leads through another |
| `DeployAlias.ReadsSource` | scripts/kontor-deploy.py:599-632 | what a name reads in each such state: the candidate of the first name on its old chain that is installed, or else its old bytes |
| `DeployAlias.AliasedExample` | scripts/kontor-deploy.py:599-632 | a host on which the daemon leads through kontor, itself a link, to the third binary, and the images differ |
| `DeployAlias.InstallAfter` | scripts/kontor-deploy.py:599-608 | the state after each operation of an installation: no name changes before the last one, which installs the binary |
| `DeployAlias.RestoreAfter` | scripts/kontor-deploy.py:611-617 | the state after each operation of a restoration: no name changes before the last one, which restores the binary |
| `Files.WrittenReads` | scripts/kontor-deploy.py:620-632 | a write or a change of mode through links is what is read through them after it |
| `Files.ReadAgree` | scripts/kontor-deploy.py:599-632 | a chain of links that avoids the changed names reads the same in both file systems |
| `YamlRoundTrip.RoundTrip` | scripts/kontor_project.py:453-499 | for every nested projection with safe keys, reading the written text gives the same value exactly when every string survives the comment scanner and the line splitter; otherwise the text is refused, never misread |
| `YamlRoundTrip.QuoteFreeSurvives` | scripts/pack.py:151-161 | a string without a double quote and without U+0085, U+2028 or U+2029 always survives |
| `YamlRoundTrip.QuoteSignRefused` | scripts/pack.py:151-161 | a value that is refused: a string with a quote, a blank and a number sign |
| `YamlRoundTrip.SeparatorRefused` | scripts/pack.py:164-174 | a value that is refused: a string with U+2028 |
| `YamlKeys.RoundTripExactly` | scripts/kontor_project.py:445-487 | for every nested value with distinct, nonempty keys of any kind and without floats: reading the written text gives the same value exactly when every key is one the writer leaves unquoted and every string survives |
| `YamlKeys.FirstFaultRefused` | scripts/pack.py:288-373 | at any depth: when the first key that is written in quotes is the first of its mapping, or a string that does not survive comes before it, the text is refused, whatever follows |
| `YamlKeys.QuotedNotKey` | scripts/pack.py:177-194 | whatever is left of a line that starts with a key in quotes, the key read from it is never that key |
| `YamlKeys.MissNode` | scripts/pack.py:288-373 | the node reader never gives the written value back from tokens that agree with its rows up to the first quoted key or broken string, and fails where the fault is the first key of a mapping or a string |
| `YamlKeys.BlankKeyRefused` | scripts/pack.py:365-373 | the mapping of `a b` to 1 is refused, and so is that mapping under another key |
| `YamlKeys.BlankKeyMisread` | scripts/pack.py:288-331 | behind another key, `a b` comes back with its quotes, as another key |
| `YamlFaults.DocumentMeets` | scripts/pack.py:164-174 | the tokens of a written document are its rows up to the first quoted key or broken string, and then a beginning of that row that is not cut at a colon |
| `YamlRoundTrip.TokensNeverFail` | scripts/pack.py:164-174 | the check for tab indentation never fires, because it looks only at leading blanks |
| `YamlRoundTrip.TabIndentRead` | scripts/pack.py:164-174 | a line indented by a tab is read as if it were not indented |
| `YamlRoundTrip.NodeParse` | scripts/pack.py:365-373 | reading tokens that agree with the written rows consumes exactly those rows and gives the value back, or fails when a row is broken |
| `YamlRoundTrip.DocumentTokens` | scripts/pack.py:164-174 | the tokens of a written document are its rows, up to the first row whose string does not survive |
| `YamlRows.BrokenLine` | scripts/pack.py:151-174 | a string that does not survive leaves a first line that ends in an unclosed quote |
| `YamlRows.GoodToken` | scripts/pack.py:164-174 | a row whose string survives is read as the same token |
| `YamlScalars.ParseInline` | scripts/pack.py:227-285 | every scalar and empty collection is read back from its written text |
| `YamlScalars.DecodeClosed` | scripts/kontor_project.py:438-439 | decoding the JSON text of a string gives the string |
| `YamlScalars.DecodeEscape` | scripts/kontor_project.py:438-439 | decoding an escaped prefix gives the string and leaves what follows, so nothing is lost at a split |
| `YamlDocuments.DocumentReads` | scripts/pack.py:376-383 | every document built of plain and quoted scalars, flow collections, block text, nested sequences and mappings, mappings on the line of their dash and sequences at the indentation of their key, with comments and empty lines between, reads as the value it spells: order, keys and nesting included |
| `YamlDocuments.NodeReads` | scripts/pack.py:365-373 | such a document among other tokens reads as its value and ends at its last line |
| `YamlDocuments.ItemReads` | scripts/pack.py:339-361 | an item is nothing, a scalar, what stands below its dash, or a mapping that begins on the line of the dash |
| `YamlDocuments.FieldReads` | scripts/pack.py:303-330 | the value of a key is nothing, a scalar, block text, what stands below it, or a sequence at its own indentation |
| `YamlDocuments.MisalignedRefused` | scripts/pack.py:348-356 | a mapping on the line of a dash goes on two columns right of the dash; where its first value stands on that line, any other deeper line behind it is refused |
| `YamlDocuments.BlockRead` | scripts/pack.py:304-312 | block text keeps its line breaks or joins its lines with blanks, and ends with a break unless a dash drops it |
| `YamlDocuments.RowToken` | scripts/pack.py:151-174 | a line is its content without indentation, space behind and a comment that no open quote holds |
| `YamlDocuments.DocumentExample` | scripts/pack.py:376-383 | `a: [b, c] # d` reads as the mapping of `a` to the list of `b` and `c`, in this order |
| `YamlForms.FlowSequence` | scripts/pack.py:204-224 | a flow sequence reads as the values of the texts between its top-level commas, in order, or is refused for the first text that is refused |
| `YamlForms.FlowMapping` | scripts/pack.py:266-273 | a flow mapping holds each key once, in the order of first occurrence, with the value of its last one, or is refused for the first value that is refused |
| `YamlForms.FlowEntryNeeded` | scripts/pack.py:268-271 | a flow mapping whose first entry has no colon is refused for it |
| `YamlForms.FlatForms` | scripts/pack.py:204-224 | texts without quotes, brackets and commas, quoted texts and bracketed ones are not cut |
| `YamlForms.SingleQuoted` | scripts/pack.py:231-251 | a single-quoted text, with each quote in it doubled, reads as its string; only a comment may follow, and without the closing quote it is refused |
| `YamlForms.QuotedForms` | scripts/pack.py:231-251 | every text after a single quote has one of these forms |
| `YamlForms.DoubleQuoted` | scripts/pack.py:252-258 | a double-quoted text reads as a string exactly when it spells it in JSON, character by character with every escape there is, and is refused otherwise |
| `YamlForms.Unfinished` | scripts/pack.py:252-262 | an opening quote or bracket whose partner does not end the text is refused |
| `YamlForms.PlainForms` | scripts/pack.py:274-285 | a plain text is null, a truth value, an integer, a decimal, refused for a colon before space, or itself, by its words and digits |
| `YamlForms.IntegerRead` | scripts/pack.py:281-282 | digits, with any zeros before them and a sign before these, read as their number |
| `YamlReader.ParseMap` | scripts/pack.py:288-331 | a map reader ends past its start and within the tokens, and stops only at a shallower token or a dash at its own depth; it terminates on every input |
| `YamlReader.ParseSeq` | scripts/pack.py:334-362 | a sequence reader ends past its start and never stops at a dash of its own depth; it terminates on every input |
| `YamlReader.ItemValue` | scripts/pack.py:339-361 | a sequence item, also one re-indented as an inline mapping, ends strictly past its dash |
| `YamlReader.ParseNode` | scripts/pack.py:365-373 | a node ends strictly past its first token; the mutual recursion has a measure that decreases on every input |
| `YamlLoops.LoadText` | scripts/pack.py:376-383 | the imperative reader computes the specified load, which gives a value only when every token was consumed; what that is for each form of document is `YamlDocuments.DocumentReads` |
| `YamlLoops.ReadMap` | scripts/pack.py:288-331 | the loop over the entries, with its duplicate check, computes the specified map and end |
| `YamlLoops.ReadSeq` | scripts/pack.py:334-362 | the loop over the items computes the specified list and end |
| `YamlLoops.ReadItem` | scripts/pack.py:339-361 | the loop that gathers the deeper tokens of an inline mapping computes the specified item |
| `YamlLoops.ReadEntryValue` | scripts/pack.py:303-329 | the value after a key, block text included, is the specified one |
| `YamlLoops.ReadNode` | scripts/pack.py:365-373 | the choice between sequence, scalar and mapping is the specified one |
| `YamlLoops.ReadTokens` | scripts/pack.py:164-174 | the loop over the lines gives the specified tokens or the first error |
| `YamlLoops.ScanComment` | scripts/pack.py:151-161 | the loop with its two quote flags keeps the specified prefix |
| `YamlLoops.FindKey` | scripts/pack.py:177-194 | the loop with its quote and depth finds the specified key and rest |
| `YamlLoops.CutFlow` | scripts/pack.py:204-224 | the loop that cuts a flow text at its top-level commas gives the specified parts |
| `YamlLoops.LineBuffer.RenderNode` | scripts/kontor_project.py:453-487 | the writer appends exactly the rows of the value to the shared lines, and refuses exactly the values it does not support or whose keys are empty |
| `YamlLoops.LineBuffer.RenderEntries` | scripts/kontor_project.py:459-471 | the loop over a mapping's entries appends exactly their rows, or stops at an empty key |
| `YamlLoops.LineBuffer.RenderItems` | scripts/kontor_project.py:476-486 | the loop over a list's items appends exactly their rows |
| `PlanWaves.ValidateWaves` | scripts/pack.py:1872-1893 | accepts exactly the acyclic graphs with known dependencies; each wave is the length of the longest dependency chain; a refusal lists, sorted and once each, exactly the keys that lie on or depend on a cycle |
| `PlanWaves.RunQueue` | scripts/pack.py:1884-1890 | the growing queue ends, with each key in it at most once and after everything it depends on |
| `PlanWaves.VisitChildren` | scripts/pack.py:1886-1890 | visiting the children of one key keeps counters, waves and queue as the invariant says |
| `PlanWaves.CountDependencies` | scripts/pack.py:1872-1882 | the counters are the numbers of dependencies and the child lists are the reversed relation, or an unknown dependency is reported |
| `PlanGraph.WavesLongest` | scripts/pack.py:1883-1890 | waves that obey the step rule are the longest chains, whatever the order of keys and dependencies |
| `PlanGraph.StuckBlocked` | scripts/pack.py:1891-1893 | a key left over by the queue lies on or depends on a cycle |
| `PlanGraph.OrderedNotBlocked` | scripts/pack.py:1891-1893 | a key the queue reached neither lies on nor depends on a cycle |
| `PlanView.ViewPictures` | scripts/pack.py:1917-1949 | the view of an accepted document, line by line: one line for each wave from 0 to the last, with the ids whose longest chain has that many dependencies, sorted, and how many; one line for each dependency, sorted, or that there is none; the epic; one line for each task, by id, with its bindings, phase, wave and title |
| `PlanView.LoadedPictures` | scripts/pack.py:1952-2006 | so does the view derived for every plan that loads, with a graph check that keeps what `ValidateWaves` promises |
| `PlanView.CheckedShows` | scripts/pack.py:1996-2006 | the text between the markers of every plan that passes the full check, and of every plan that sync returns, pictures the graph it holds |
| `PlanSync.SyncFixpoint` | scripts/pack.py:1996-2006 | a text passes the full check exactly when sync returns it unchanged |
| `PlanSync.SyncResult` | scripts/pack.py:2285-2299 | what sync returns passes the full check, equals the input outside the markers, and syncs to itself |
| `PlanRewrite.SyncExactly` | scripts/pack.py:2285-2299 | for every plan that loads, with each marker once and in order, closed fences between them and a view without a plan graph of its own: sync succeeds exactly when the markers are bounded by line breaks and stand outside fences in the section, the graph does not stand between them, the new view holds each marker once and stands on its own, and front matter and task table are still admitted; the result loads to the same document |
| `PlanRewrite.Exchanged` | scripts/pack.py:1952-2006 | exchanging what stands between the markers for a self-contained view moves heading, section and graph along and loads the same document |
| `PlanRewrite.ExchangedBack` | scripts/pack.py:1952-2006 | if the plan with the view loads, the view has its place in the section, is self-contained, and the graph stands elsewhere |
| `PlanRewrite.SettledAdmits` | scripts/pack.py:1723-1733 | front matter and task table that end before the view are the same in the rewritten text |
| `PlanRewrite.AtLines` | scripts/pack.py:1990-2005 | in a plan that passes the full check the view is bounded by line breaks |
| `PlanParts.ReadThree` | scripts/pack.py:1677-1704 | blocks and visible lines of a document whose first parts end outside fences are those of its parts, moved |
| `PlanClean.CleanView` | scripts/pack.py:1917-1949 | if no text of the document holds a line break or a marker, no id an angle bracket, and the epic's key shows more than backticks, its view holds each marker once and is self-contained |
| `PlanClean.SyncSucceeds` | scripts/pack.py:2285-2299 | on a plan with a clean document, front matter and task table before the view and closed fences between the markers, sync succeeds exactly when the markers are bounded by line breaks and stand outside fences in the section, and the graph does not stand between them |
| `PlanClean.MarkedTitle` | scripts/pack.py:1770-1775 | sync refuses every plan in which a title holds a marker, and the single-line check of titles admits both markers |
| `PlanExample.SyncExample` | scripts/pack.py:2285-2299 | a plan with front matter, a task table and one task, checked by a graph check that keeps what `ValidateWaves` promises, syncs, whatever the lines of its graph are |
| `Text.CharacterForms` | scripts/pack.py:164-174 | the characters that stripping takes for space and the line splitter for a break |
| `TextLines.CountLines` | scripts/pack.py:1990-1999 | every occurrence of a pattern without line breaks lies within one line of the text |
| `TextLines.OccursOnce` | scripts/pack.py:1990-1995 | a pattern that is counted once, on a line of its own, stands nowhere else, overlaps included |
| `TextLines.CountWithin` | scripts/pack.py:1990 | longer text holds a pattern at least as often |
| `TextLines.PiecePlace` | scripts/pack.py:1995 | where the piece between two patterns that occur once starts and ends |
| `PlanMarkdown.MarkdownParts` | scripts/pack.py:1677-1704 | the loop over the lines computes the specified reading |
| `PlanLoads.LoadExactly` | scripts/pack.py:1952-2006 | the loader's answer before it looks at the view, from any partition of the text into fenced blocks and visible lines, which there is exactly when no fence is left open: refused without exactly one heading, then without exactly one graph, and else what that graph, its place in the section and the checks say, in this order |
| `PlanLoads.SectionFound` | scripts/pack.py:1707-1722 | the section ends before the first line after its heading that is a heading of level one to three |
| `PlanLoads.HeadingForm` | scripts/pack.py:1717 | such a line is one to three number signs, a blank and anything |
| `PlanLoads.GraphFound` | scripts/pack.py:1959-1965 | there is one graph exactly when one block and no other has the info string `plan-graph` |
| `PlanLoads.FrontForm` | scripts/pack.py:1982-1986 | there is front matter exactly when some block of text stands between a first line of three dashes and another such line, and it is the shortest such block, without the carriage return at its end |
| `PlanLoads.TableForm` | scripts/pack.py:1724-1729 | the task table stands between the first heading of the steps and the first mention of the section after it, or the end |
| `PlanLoads.OpeningForm` | scripts/pack.py:65 | a fence opens with at most three blanks, three or more backticks or tildes, and an info string, which is trimmed |
| `PlanLoads.ClosingForm` | scripts/pack.py:1684-1688 | it is closed by at most three blanks, the same mark at least as often, and space |
| `PlanMarkdown.PartitionUnique` | scripts/pack.py:1677-1704 | whatever partitions a document into fenced blocks and visible lines is what the reader finds |
| `PlanMarkdown.MarkdownPartition` | scripts/pack.py:1677-1704 | every line is inside exactly one fenced block and hidden, or visible as it is; each block runs from its opening fence to the first line that closes it; a fence left open is closed by no later line |
| `ArchiveRecovery.RunInv` | apps/paseo-plugin/client/archive-feedback.ts:131-198 | the invariant of loads and refreshes holds over every interleaving of starts, replies, host switches, unmounts and remounts |
| `ArchiveRecovery.OnlyTheLatestLoadCommits` | apps/paseo-plugin/client/archive-feedback.ts:146-165 | the item list, its host, its error and its completeness change only at a mount or host switch, which empties the list, or by an answer to the most recently started load, for the current host, in a live view |
| `ArchiveRecovery.StaleAnswerWritesNothing` | apps/paseo-plugin/client/archive-feedback.ts:147-158 | an answer to a superseded, foreign-host or unmounted load writes no state and sends no read |
| `ArchiveRecovery.SupersededForever` | apps/paseo-plugin/client/archive-feedback.ts:147-171 | over whole runs: once a later load or a cleanup happened, an earlier load writes nothing ever again, even after a remount for the same host |
| `ArchiveRecovery.OneRefreshAtATime` | apps/paseo-plugin/client/archive-feedback.ts:177-180 | while a refresh is current, starting another does nothing |
| `ArchiveRecovery.RefreshProgress` | apps/paseo-plugin/client/archive-feedback.ts:180-197 | over every run a refresh reconciles its references at most once each and in order, all of them before its load; a live view that shows a refresh has a current one |
| `ArchiveRecovery.RetiredWritesNothing` | apps/paseo-plugin/client/archive-feedback.ts:183-196 | a retired refresh sends no reconcile, writes no note, reports no row and leaves `active` alone |
| `ArchiveRecovery.RetiredForever` | apps/paseo-plugin/client/archive-feedback.ts:168-198 | over whole runs: a refresh retired by a host switch or unmount stays retired |
| `ArchiveRecovery.CountersGrow` | apps/paseo-plugin/client/archive-feedback.ts:147-180 | the load and run counters never go back; every start and cleanup moves them; no suspended load or refresh reappears |
| `ArchiveRecovery.CompleteWasRead` | apps/paseo-plugin/client/archive-feedback.ts:154-163 | over every run a list shown as complete holds only items whose own owner row was read, or whose read failed with an empty text |
| `ArchiveRecovery.LoadWrites` | apps/paseo-plugin/client/archive-feedback.ts:146-165 | after any events, an answer to the current load: a list that could not be read leaves the items and says so; while a reference is left, nothing on screen changes and its review is asked for unless it was; the last answer commits, in the order of the list, one item for each unresolved row and each failed read, the latter with the last known row, and the list is complete exactly when no read failed with a text |
| `ArchiveRecovery.SilentFailure` | apps/paseo-plugin/client/archive-feedback.ts:157-163 | a run after which a list with a failed read is shown as complete: the error text is empty |
| `ArchiveRecovery.RefreshStarts` | apps/paseo-plugin/client/archive-feedback.ts:177-183 | a refresh starts unless one is active or the view is gone, with the one reference that was pressed or all those shown, in order, and asks for the first with the item known for it |
| `ArchiveRecovery.AnswerNoted` | apps/paseo-plugin/client/archive-feedback.ts:184-195 | an answer to the current refresh is noted under its reference, as settled, unresolved with whether its state changed, or failed; a row is reported; then the next reference is asked for, or the list loaded |
| `ArchiveRecovery.RefreshEnds` | apps/paseo-plugin/client/archive-feedback.ts:197 | a refresh waits until its load has ended; then the current one ends and is no longer shown, and a retired one leaves without a trace |
| `ArchiveRecovery.KeyUnique` | apps/paseo-plugin/client/archive-feedback.ts:44 | items and notes of different references do not mix as long as no review id holds a colon |
| `Navigation.RunInv` | apps/paseo-plugin/client/navigation-state.ts:23-58 | over every run, Back included: off Sessions and Overview the work scope is the route's, on Overview the overview scope is, and a selection made there is the work scope; the stack holds at most 40 entries, all of which obey this too |
| `Navigation.HistoryIsTop` | apps/paseo-plugin/client/navigation-state.ts:35-58 | over every run the stored history is the top of the unbounded stack, and all of it while that stack never passed 40 |
| `Navigation.BackRestores` | apps/paseo-plugin/client/navigation-state.ts:35-58 | leaving a page, doing anything that goes at most 39 pages deeper and takes only its own Backs, and going back restores route, query, offset, page views, both scopes and the session view |
| `Navigation.NavigateLeads` | apps/paseo-plugin/client/navigation-state.ts:35-46 | each field given in the patch has that value and each other keeps its own; there is no revision without a source, and none is kept for another source; the same route changes nothing, any other puts the page left on top of at most 40 entries |
| `Navigation.ScopesKept` | apps/paseo-plugin/client/navigation-state.ts:23-30 | the overview scope changes on Overview only, and the work scope neither on Sessions nor on Overview without a selection |
| `Navigation.WrittenView` | apps/paseo-plugin/client/navigation-state.ts:77-87 | a query and an offset are read back where they were written and nowhere else |
| `Navigation.WrittenSession` | apps/paseo-plugin/client/navigation-state.ts:55-75 | a session view is read back on every route of its project and epic, and no other one changes |
| `Navigation.HostNavigation.Go` | apps/paseo-plugin/client/navigation-state.ts:35-46 | the method changes the host's fields as the specified navigation does, and leads where the patch says |
| `Navigation.HostNavigation.TakeBack` | apps/paseo-plugin/client/navigation-state.ts:47-58 | the method changes the host's fields as the specified Back does |
| `Navigation.HostNavigation.RememberScope` | apps/paseo-plugin/client/navigation-state.ts:23-30 | the method keeps the overview and work scopes in step with the route |
| `Navigation.HostNavigation.WritePageView` | apps/paseo-plugin/client/navigation-state.ts:64-66 | the method sets one page view |
| `Navigation.HostNavigation.WriteRouteView` | apps/paseo-plugin/client/navigation-state.ts:82-87 | the method sets the query or the offset of one route, or both |
| `Navigation.HostNavigation.RefreshSourceRevision` | apps/paseo-plugin/client/navigation-state.ts:88-92 | the method replaces the revision in place and keeps the scopes in step |
| `Navigation.HostNavigation.RefreshContextSource` | apps/paseo-plugin/client/navigation-state.ts:106-110 | the method replaces the source in place, without a history entry, and keeps the scopes in step |
| `RecentSessions.RunInv` | apps/paseo-plugin/client/recent-sessions.ts:102-153 | over every run with failing reads and writes, each host shows the first 500 distinct visits of its whole uncut history since Clear; `device` is said only when the stored value reads back as the record; `session` exactly without a device |
| `RecentSessions.RecallTake` | apps/paseo-plugin/client/recent-sessions.ts:139-142 | cutting the list after every visit loses nothing that the first 500 of the whole log would show |
| `RecentSessions.RecallDedup` | apps/paseo-plugin/client/recent-sessions.ts:139-142 | moving a visit to the front of the distinct list equals putting it before the raw history and keeping the latest visit of each id |
| `RecentSessions.HostsApart` | apps/paseo-plugin/client/recent-sessions.ts:102-153 | an operation on one host leaves every other host's state and stored value as they are |
| `RecentSessions.UnreadableKept` | apps/paseo-plugin/client/recent-sessions.ts:113-146 | over every run until Clear, an unreadable host stays unreadable and its stored value is unchanged |
| `RecentSessions.VisitPersisted` | apps/paseo-plugin/client/recent-sessions.ts:127-147 | a visit reaches the device exactly unless there is none, the value there must stay, or the write throws, and the state says which; it is first, keeps the time of the last Clear, and is announced |
| `RecentSessions.ClearPersisted` | apps/paseo-plugin/client/recent-sessions.ts:127-153 | a Clear writes an empty record with its time, over an unreadable value too |
| `RecentSessions.RunDurable` | apps/paseo-plugin/client/recent-sessions.ts:127-153 | over every run without a throwing call, from readable values, all that is known is on the device |
| `RecentSessions.RecentStore.RecordVisit` | apps/paseo-plugin/client/recent-sessions.ts:139-146 | the method makes the specified change to device, states and notices |
| `RecentSessions.RecentStore.WriteThrough` | apps/paseo-plugin/client/recent-sessions.ts:127-136 | a write reaches the device unless there is none or it throws, and the state says which |
| `RecentSessions.RecentStore.ConfigureStorage` | apps/paseo-plugin/client/recent-sessions.ts:44-48 | a new device store forgets every host's state and tells the listeners |
| `RecentSessions.RecentStore.ReadRecent` | apps/paseo-plugin/client/recent-sessions.ts:120-125 | a read loads at most once, trims and writes only past 500, and never notifies |
| `RecentSessions.RecentStore.ClearRecent` | apps/paseo-plugin/client/recent-sessions.ts:149-153 | Clear writes an empty record over whatever was stored |
| `RecentSessions.RecentStore.LoadRecent` | apps/paseo-plugin/client/recent-sessions.ts:102-114 | no device, no value, an accepted value, and a refused value or failing read each give their own state |
| `PlanBlocks.PlanBlocks` | apps/paseo-plugin/client/plan-document.tsx:18-42 | the reader's blocks satisfy the declarative description of a plan: front matter first, then separate blocks of the right kind and extent with exactly their lines, and only blank lines between them |
| `PlanBlocks.PlanUnique` | apps/paseo-plugin/client/plan-document.tsx:18-42 | a document has one such reading only, so the reader's answer is it |
| `PlanBlocks.PlanPartition` | apps/paseo-plugin/client/plan-document.tsx:18-42 | the spans are nonempty, strictly increasing and disjoint, and every nonblank line is in exactly one |
| `PlanBlocks.HeadingMatches` | apps/paseo-plugin/client/plan-document.tsx:5 | every split of a line into marks, space and title is found, with the same level and the longest run of space |
| `PlanBlocks.HeadingFound` | apps/paseo-plugin/client/plan-document.tsx:5 | what is reported as a heading is such a split |
| `PlanBlocks.CarriageReturn` | apps/paseo-plugin/client/plan-document.tsx:5 | a line that ends in a carriage return is never a heading |
| `PlanBlocks.ReadCode` | apps/paseo-plugin/client/plan-document.tsx:27-31 | a code block holds the lines up to the first one that starts with its fence |
| `PlanBlocks.ReadTable` | apps/paseo-plugin/client/plan-document.tsx:32-36 | a table holds its header and the lines with a bar that follow the separator, as cells |
| `PlanBlocks.ReadProse` | apps/paseo-plugin/client/plan-document.tsx:37-39 | a paragraph or list goes on exactly as far as its kind does |
| `PlanBlocks.FindClosing` | apps/paseo-plugin/client/plan-document.tsx:21 | the front matter closes at the first later line of dashes, if the document starts with one |
| `PlanBlocks.TaskDeclaration` | apps/paseo-plugin/client/plan-document.tsx:47-62 | the declaration found is one, and none comes before it: a heading only without any row, a graph node only without both, and the first of its kind; none is missed |
| `PlanForms.DashesForm` | apps/paseo-plugin/client/plan-document.tsx:21 | front matter opens and closes with three dashes and space around |
| `PlanForms.FenceForm` | apps/paseo-plugin/client/plan-document.tsx:26-28 | a fence is space, three backticks or tildes, and anything |
| `PlanForms.ClosingForm` | apps/paseo-plugin/client/plan-document.tsx:27-28 | a code block is closed by the mark that opened it |
| `PlanForms.ItemForm` | apps/paseo-plugin/client/plan-document.tsx:6 | a list item is space, a bullet or a number with a dot or parenthesis, and space |
| `PlanForms.RuleForm` | apps/paseo-plugin/client/plan-document.tsx:32 | a rule is three dashes or more, with a colon at either end or not |
| `PlanForms.ProseEnds` | apps/paseo-plugin/client/plan-document.tsx:37-39 | a paragraph or a list goes on to the first line that is empty, a heading, a fence, has a bar or is of the other kind |
| `PlanForms.SeparatorForm` | apps/paseo-plugin/client/plan-document.tsx:32 | a row separates the header of a table exactly when each of its cells is such a rule |
| `PlanForms.TokenForm` | apps/paseo-plugin/client/plan-document.tsx:50-53 | a heading names a task when the id stands in it with no word character or dash beside it |
| `PlanForms.GraphForm` | apps/paseo-plugin/client/plan-document.tsx:56-58 | the graph's fence is a mark, space or none, and the word, which no word character follows |
| `PlanForms.SqueezeForm` | apps/paseo-plugin/client/plan-document.tsx:59 | a graph node is compared with its line without white space |
| `PlanForms.SpacedIdNotFound` | apps/paseo-plugin/client/plan-document.tsx:59 | a task whose id holds white space is not found in the graph |
| `PlanBlocks.RowIsLine` | apps/paseo-plugin/client/plan-document.tsx:81-84 | a row that a line maps to is the cells of that very line, and no other block claims the line |
| `PlanBlocks.RowLines` | apps/paseo-plugin/client/plan-document.tsx:81-84 | a line maps to a row exactly behind the separator of a table, up to its last line |
| `PlanBlocks.TargetRow` | apps/paseo-plugin/client/plan-document.tsx:47-52 | the row of a declaration found in a table has the id as its first cell |
| `TableCells.Cells` | apps/paseo-plugin/client/plan-document.tsx:7-16 | the scanning loop computes the specified cells |
| `TableCells.InnerForms` | apps/paseo-plugin/client/plan-document.tsx:7-9 | space around a line, and one bar at either end or none, do not belong to its cells |
| `TableCells.CellsRoundTrip` | apps/paseo-plugin/client/plan-document.tsx:7-16 | the cells of a written row come back, whatever bars and backslashes they hold |
| `JsText.SpaceForms` | apps/paseo-plugin/client/plan-document.tsx:5-6 | the characters that `\s` and trimming take for space, and the line ends at which `.` stops |
| `JsText.JoinNewlines` | apps/paseo-plugin/client/plan-document.tsx:19 | the lines joined again are the content |
| `BranchGrammar.BranchRefusal` | scripts/kontor_project.py:311-372 | the answer is the one its meaning describes: none exactly for a canonical branch, each code for its own fault, stated over all ways to split the branch |
| `BranchGrammar.LetterForms` | scripts/kontor_project.py:311-372 | the letters of a key and of a slug, one by one |
| `BranchGrammar.ExplainsUnique` | scripts/kontor_project.py:311-372 | the meanings exclude one another, so a branch is accepted if and only if it is canonical and each code is returned exactly when it applies |
| `BranchGrammar.KeyedBranchUnique` | scripts/kontor_project.py:345-365 | type, project, number and slug of a keyed branch are unique |
| `BranchGrammar.LooksLikeLowercaseKey` | scripts/kontor_project.py:288-308 | true exactly when the text is a small-letter key, a number without leading zero, and nothing or a dash after it |
| `BranchGrammar.SlugFits` | scripts/kontor_project.py:278-285 | splitting at dashes accepts exactly the words of small letters and digits joined by single dashes |
| `BranchGrammar.ReleaseFits` | scripts/kontor_project.py:323-326 | the release pattern matches exactly three digit runs with two dots after the prefix |
| `BranchGrammar.RestRefusal` | scripts/kontor_project.py:335-372 | after a known type: the refusal that fits the rest, or a decomposition with the configured project |
| `OrganizationDraft.RebaseOrganizationDraft` | apps/paseo-plugin/client/organization-draft.ts:26-50 | the merge, field by field: each value is the local one if the draft edited it, else the current one; the field a draft does not merge is the current one |
| `OrganizationDraft.MergedUnedited` | apps/paseo-plugin/client/organization-draft.ts:26-50 | a draft without edits gives back the current settings exactly when those list no favorite twice; otherwise only the repeats are dropped |
| `OrganizationDraft.MergedTwice` | apps/paseo-plugin/client/organization-draft.ts:26-50 | reapplying the draft to its own result gives that result, and nothing else |
| `OrganizationDraft.EditsCommute` | apps/paseo-plugin/client/organization-draft.ts:26-50 | two drafts that edit different values may be reapplied in either order, up to the order of the favorites |
| `OrganizationDraft.MergedFields` | apps/paseo-plugin/client/organization-draft.ts:27-34 | each field of each mapping is the local text, trimmed, if the draft edited it, else the current one |
| `OrganizationDraft.MergedSays` | apps/paseo-plugin/client/organization-draft.ts:27-34 | an edited field says what the draft says, without the space around it, and nothing if that is all; any other says what the current one says |
| `OrganizationDraft.SetFieldSays` | apps/paseo-plugin/client/organization-draft.ts:3-11 | a field that is set says its text without the space around it, and nothing if that is all |
| `OrganizationDraft.MergedAssociated` | apps/paseo-plugin/client/organization-draft.ts:35-38 | a plan is associated exactly when the draft says so, if it edited that, else when the current settings do |
| `OrganizationDraft.MergeSetElements` | apps/paseo-plugin/client/organization-draft.ts:21-24 | an element is there exactly when the local list says so, if the draft edited it, else when the current list does; each once |
| `OrganizationDraft.MergeSetTwice` | apps/paseo-plugin/client/organization-draft.ts:21-24 | merging a list once more changes nothing, not even the order |
| `OrganizationDraft.MergeMap` | apps/paseo-plugin/client/organization-draft.ts:12-20 | the loop over the keys gives each key the local value if edited, else the current one, and deletes what was deleted |
| `OrganizationDraft.MergeMappings` | apps/paseo-plugin/client/organization-draft.ts:27-34 | the loop over ids and fields gives each id its merged mapping and leaves no mapping without a field where it edited one |
| `OrganizationDraft.MergeAssociations` | apps/paseo-plugin/client/organization-draft.ts:35-38 | an edited association is merged element by element, a removed one is removed |
| `OrganizationDraft.SetFieldReads` | apps/paseo-plugin/client/organization-draft.ts:3-10 | setting a field sets that field alone, trimmed, and leaves no empty mapping behind |
| `OrganizationOrder.ReorderSavedSiblingOrder` | apps/paseo-plugin/client/organization-order.ts:25-31 | the loop that refills the movable slots computes the specified order |
| `OrganizationOrder.ReorderedPermutes` | apps/paseo-plugin/client/organization-order.ts:25-31 | the result holds exactly the saved and sibling keys, each once |
| `OrganizationOrder.ReorderedSlots` | apps/paseo-plugin/client/organization-order.ts:25-31 | a key that may not move keeps its exact slot, and the movable slots hold the movable keys moved among themselves |
| `OrganizationOrder.ReorderedBack` | apps/paseo-plugin/client/organization-order.ts:25-31 | moving the key back by its actual displacement restores the whole order |
| `OrganizationOrder.ReorderedStill` | apps/paseo-plugin/client/organization-order.ts:17-18 | nothing moves when the key is not movable or not listed, or the distance is not finite |
| `OrganizationOrder.MovedPlaces` | apps/paseo-plugin/client/organization-order.ts:16-23 | the moved key is at its clamped target and the others keep their order |
| `OrganizationOrder.MovedPermutes` | apps/paseo-plugin/client/organization-order.ts:16-23 | moving only reorders |
| `OrganizationOrder.ReorderedSiblings` | apps/paseo-plugin/client/organization-order.ts:16-23 | the splices compute the specified move |
| `TestLanes.Classify` | scripts/test-lanes.py:150-192 | `light` and `heavy` are the sorted lists, each name once, of the selected packages outside and inside `heavy`; each flag is set exactly by its own kind of path; every owner is the one `package_of` gives |
| `TestLanes.PackageOf` | scripts/test-lanes.py:126-134 | the loop over the roots finds the specified owner of a path |
| `TestLanes.OwnerDeepest` | scripts/test-lanes.py:126-134 | a path has no owner exactly when no root holds it; else its owner is the first listed of the deepest roots that do |
| `TestLanes.ComponentForms` | scripts/test-lanes.py:126-134 | the components of a path are its parts between slashes, without empty ones and dots; a path from the root stands for itself |
| `TestLanes.PathForms` | scripts/test-lanes.py:158-180 | which paths are sources or manifests, and which ask for the console, interface and root lanes |
| `LanesExact.SelectedCut` | scripts/test-lanes.py:158-168 | for every list of files and every graph: exactly the changed packages, and what changed sources reach without going on through a package that a plain file selected and nothing searched since |
| `LanesExact.SelectedExactly` | scripts/test-lanes.py:158-168 | in one call, with its own graph, the selection is what is wanted if and only if every such package that a changed source reaches has all its dependents found anyway; files and graph decide it |
| `LanesExact.MissedPackage` | scripts/test-lanes.py:158-168 | a sorted list of two paths, a note in one package and then code in another, and the dependencies for which a wanted package is missed |
| `TestLanes.Expand` | scripts/test-lanes.py:163-168 | the stack ends and adds exactly the dependents reachable without passing through a package selected before |
| `TestLanes.SettledExactly` | scripts/test-lanes.py:158-168 | the selection is the changed packages and all dependents of changed sources, for every dependency graph, if and only if no package gets its first changed source after a package changed by plain files only |
| `TestLanes.SourcesSelect` | scripts/test-lanes.py:158-168 | when every package file is a source or manifest, the selection is the least set with the changed packages closed under dependents, whatever the order of the files |
| `TestLanes.SelectedWithin` | scripts/test-lanes.py:158-168 | nothing else is ever selected, and every changed package is |
| `TestLanes.UnsettledMisses` | scripts/test-lanes.py:158-168 | for any other list of files there are dependencies for which a wanted package is missed |
| `PackResources.Resources.Collect` | scripts/pack.py:796-828 | the worklist ends; it succeeds if and only if no linked document has a faulty link, then with exactly the linked resources; otherwise it reports a faulty link of a linked document |
| `PackResources.Resources.FollowLinks` | scripts/pack.py:807-828 | following one document adds exactly new files, each with its source and on the queue, or stops at its first faulty link |
| `PackResources.LinkedLeast` | scripts/pack.py:796-828 | the linked resources are the least set with the listed ones that no link leaves |
| `PackResources.LinkForms` | scripts/pack.py:807-826 | what a target with a fragment or none means: nothing, a way out, a missing file, or a file |
| `PackResources.ExternalForms` | scripts/pack.py:807-815 | four schemes, a fragment alone and templates are not followed |
| `PackResources.LinksOfDocument` | scripts/pack.py:807-826 | a document links to what its own targets lead to, and what is no document to nothing |

## Left out

- Subprocesses, launchctl and lsof parsing, time-outs, clocks and hashing: effects that may fail, and a digest function that the generations in place agree with.
- The `resolve_job` guard of the deploy script: case analysis over file and launchctl reads.
- PyYAML, which the loader prefers when it is there: another parser, not part of this repository.
- Floats and block scalar styles in the round trip; the reader's branches for them are modelled. Escapes of lone surrogates are refused, because characters are Unicode scalar values here. The digit limit of the interpreter's integer conversion is not modelled.
- The parts of the graph validator before and after the waves: field-by-field checks of bindings, phases and external fences.
- PlanRewrite.SyncExactly: not for a plan whose text between the markers leaves a fence open, because replacing it changes how all later fences pair up; and not for a view that holds a plan graph of its own, which takes a line break inside a title.
- The exact text of error messages.
- Markdown: the text joined from a block's lines is not kept beside the lines.
- `planBlocks` gives a block's shown text; the model keeps the lines or cells it is joined from, which say more.
- Insertion order of keys in the merged maps of a draft.
- Legacy recent entries, the rows shown from them, and the time arguments the code ignores.
- Reading plan sources and headings for the navigation context: filters over lists that are given.
- `hiddenArchives`, the recovery line and the note texts: small pure functions.
- `package_graph`: lookups over the metadata of the workspace; symbolic links and `..` in paths.
- Config loading, skill rendering, mirrors, adapters, byte budgets, public-tree patterns, `verify-tree.py`, `kontor-ops.py` and the user interface: file walks, pattern lists and layout.
