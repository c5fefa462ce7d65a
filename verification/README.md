# A verified model of embry0's shared-state code

embry0 runs coding agents in sandboxes. This project models the parts of it whose correctness spans many steps and proves
what they keep, in Dafny 4.11: `dafny verify dfyconfig.toml` checks all of it. Nothing of the original program is executed.

| module | what it models |
|---|---|
| `VolumeOwnership` | names, labels and owners of the QA cache volumes, job statuses, and the two pure decisions to remove a volume |
| `VolumeManager` | one deployment's volume manager: ensure, recreate, verify, mountable, destroy_for_job, and the warmth its state rows claim |
| `VolumeProtocol` | several deployments on one Docker daemon as a state machine of steps between awaits, in every interleaving |
| `VolumeReaper` | one sweep of the volume reaper as a loop among whatever the others do at each of its awaits; it refines the protocol |
| `VolumeRetention` | the retention sweep's volumes, each decided on twice, the second time on facts read anew |
| `ImageRefs`, `ImageRetention` | which references of a QA image go to `rmi`, and which images the retention removes, against the history of recorded builds |
| `TextDocuments`, `AliasPlaces`, `KeyAliases` | the worklist walk over a composed, possibly cyclic YAML graph, and the aliases of its text: those reported elsewhere, and those in keys |
| `AuditLog` | the audit file: an unlocked scan against locked appends, then the locked drain and rename |
| `Conversation`, `ContextFit`, `ToolLoop` | the agent's tool loop: the conversation it builds, fitting it to a window, and what it runs |
| `ProviderLimits`, `ResetTime`, `Fallback` | the fold of a run's failure signals, the calendar search for a reset, and the plan of stand-in models |
| `McpClient`, `SubagentStream`, `DigestCache` | JSON-RPC reply matching, subagent bracketing, and the single-flight digest cache |
| `Skills` | deltas over a skill list, and narrowing, where an empty list means no filter |

The environment is taken as explicit rules. SHA-256 is injective, so a hashed volume name is the text it is the digest of. A
volume's labels never change. The daemon refuses to remove a mounted volume. Stretches between awaits are atomic. A job's
status moves only along the allowed transitions, its row precedes its volumes and is never deleted, and job ids are not used
twice. Nothing but a deployment itself stamps that deployment's instance id on a volume.

Some promises hold only under a condition. For each, the exact condition or the exception is proved:

- A removal can take an unlabelled volume in one case: the labelled volume whose labels were read is gone before the `rm`,
  removed from outside or by another removal of the same deployment, and something else has taken its name.
  `UnlabelledGoesIff` gives the exact condition, which is that the labels are no longer the ones read; `ReplacedVolumeGoes` is
  a run. A volume labelled for another deployment is never removed.
- Whole operations never leave a row that claims a warm tree its volume lacks (`RunHonest`). Interleaved ones can, exactly
  when the last write of the row recorded a sha for another volume than the one there now (`StaleIff`). Where the warmed
  volume was still there as its sha was recorded, that is when a volume was created under the name anew since
  (`StaleOnceAnew`); an `ensure` at that point hands it out (`EnsureDuringCreate`).
- The image sweep can count an image as unused too early. It does so exactly when the image is not pinned and a row of an
  older build, recorded after every time known for the image, is still in the table (`RemovedEarlyIff`). Bakes of one
  repository that do not overlap rule this out (`RemovedWasUnselected`); overlapping ones do not (`OverlappedBakes`).
- A subagent event stands outside its subagent exactly when a message strays: it holds its own parent's result with another
  result after it, or the Task call that makes its own parent known with an event after it (`StreamObserved`).
- Aliases of values and items are reported where they are used, as `text_documents.py` says, exactly in documents in which
  no alias stands less deep than its anchor; that is when every node is written out at the first of its places in
  breadth-first order (`AliasesWhereUsed`). In `{a: [&x v], b: *x}` one does (`AnchorReported`).
- A document in which no problem is found is free of aliases exactly when no key is used again as a key or a value
  (`KeyAliases`): `{&x a: *x}` is accepted (`AcceptedAlias`).

## Model

| member | source | states |
|---|---|---|
| VolumeOwnership.NamesDistinct | embry0/cache/volume_manager.py:85-95 | Two deployments, whose ids are 16 hexadecimal digits or not known yet (storage/instance_id.py:25-27), name one volume exactly when id, scope and key all agree |
| VolumeOwnership.LabelMismatches | embry0/cache/volume_manager.py:98-105 | No mismatch is reported exactly when every ownership label, present or absent, is as wanted |
| VolumeOwnership.MatchProves | embry0/cache/volume_ownership.py:89-104 | Matching labels are equivalent to the volume being managed, of this scope, key, deployment and (per-job) job, and of none otherwise |
| VolumeOwnership.ReleasedForever | embry0/cache/volume_ownership.py:42-57 | Along any allowed status moves (jobs.py:42-94) a released job stays released and never runs again |
| VolumeManager.EnsureDelivers | embry0/cache/volume_manager.py:133-169 | ensure keeps every row honest, leaves every volume that is there as it is, changes nothing when it raises, and hands out only a present volume labelled and recorded for its key, or the job's per-job one instead, whose row claims no warmth the volume lacks |
| VolumeManager.FallbackDelivers | embry0/cache/volume_manager.py:269-285 | The fallback hands out a per-job volume in place of a per-repo one, on the same terms, or nothing |
| VolumeManager.RecreateDelivers | embry0/cache/volume_manager.py:171-208 | recreate keeps rows honest; what it hands out under the key's own name was created anew with no warmth recorded, even when the row's deletion failed; it removes at most the key's own volume, only when its labels prove it and nothing mounts it |
| VolumeManager.RunHonest | embry0/cache/volume_manager.py:133-208 | Every run of whole ensure, recreate, warm, removal, mount and foreign operations keeps the rows honest |
| VolumeManager.WarmthIsCurrent | embry0/cache/volume_manager.py:133-169 | After any such run, a volume ensure hands out has a row that claims a warm tree only of that very volume, never of an older one under the name |
| VolumeManager.WarmHonest | embry0/cache/volume_warmer.py:177-292 | The warmer's record of a sha, made only into a verified volume, keeps rows honest |
| VolumeManager.EnsureDuringCreate | embry0/cache/volume_manager.py:158-169 | Between another run's create and its row reset, ensure hands out the new volume with a true row exactly when no sha was left recorded for the key |
| VolumeManager.WholeIsCalls | embry0/cache/volume_manager.py:133-208 | Every whole operation is a list of single calls on the daemon and the table, those the interleavings below are made of |
| VolumeManager.StaleIff | embry0/cache/volume_manager.py:158-206 | After every interleaving of such calls, a key's row claims a warmth its volume has not exactly when the last call to write the key's sha (a deletion goes by the volume's name) recorded one for another volume than the one now there for the key |
| VolumeManager.StaleOnceAnew | embry0/cache/volume_manager.py:158-206 | When the warmed volume is there as its sha is recorded, that is exactly when a volume is created under its name anew afterwards |
| VolumeManager.MountableIff | embry0/cache/volume_manager.py:248-267 | What is mounted exists, is labelled and named by this deployment for the run's own job or repository; any other name resolves to the job's own volume or to nothing, and an empty one to nothing |
| VolumeManager.RecordWarmth | embry0/storage/repositories/qa_volume_state.py:24-63 | A re-record keeps a recorded sha and the volume it was warmed into, under the new name; only a reset takes a sha away; no other key's row and no volume changes |
| VolumeManager.ForgetUndoes | embry0/storage/repositories/qa_volume_state.py:82-87 | Every row of the volume's name goes and no other; recorded again without a reset, such a key starts without warmth |
| VolumeManager.SharedVolumeManager.Ensure | embry0/cache/volume_manager.py:133-169 | The method's result and the whole new state of daemon and table are those of the specification the lemmas above are about; the missing-instance warning is latched |
| VolumeManager.SharedVolumeManager.Recreate | embry0/cache/volume_manager.py:171-208 | The same for recreate, with the refusal of a mounted volume and a failed row deletion |
| VolumeManager.SharedVolumeManager.Verify | embry0/cache/volume_manager.py:210-246 | True exactly for a present volume under the deployment's own name for its key, labelled for it |
| VolumeManager.SharedVolumeManager.Mountable | embry0/cache/volume_manager.py:248-267 | The method picks what MountableIff describes |
| VolumeManager.SharedVolumeManager.RemoveOwned | embry0/cache/volume_manager.py:363-379 | One owned volume: the containers that mount it go unless they cannot, then it and its row go unless it is refused or still mounted; nothing else changes |
| VolumeManager.SharedVolumeManager.DestroyForJob | embry0/cache/volume_manager.py:319-374 | Every container that mounts a volume labelled as this deployment's for the job goes, but for volumes whose holders cannot be removed; the volumes removed, in the order of the listings, go with their rows; no other volume, container or row changes |
| VolumeManager.GoneExactly | embry0/cache/volume_manager.py:350-371 | A listed volume is removed exactly when it is the job's, is not refused, and is left without a mount: its holders are removed, or each of them held an earlier one whose holders are |
| VolumeProtocol.StepInv | embry0/cache/volume_manager.py:171-374 | Every step of every deployment, and of anything else on the daemon, keeps the protocol's invariant over volumes, labels, job tables and what is under way |
| VolumeProtocol.TokenStays | embry0/cache/volume_reaper.py:162-175 | Whatever one step does, what a sweep or a check has read stays good: an owner read as released stays so, one read as absent stays absent, and a volume under a read name is the one read or a later one |
| VolumeProtocol.OnlyRightfulRemovals | embry0/cache/volume_reaper.py:150-217 | In every interleaving a volume disappears only unmounted, by a removal from outside or by a rightful one: its instance label is the remover's and its labels are still those read, or it carries none and is not the volume that was read (or adoption is on) |
| VolumeProtocol.NeverAnothers | embry0/cache/volume_ownership.py:132-170 | No step of one deployment removes a volume labelled for another, in any run |
| VolumeProtocol.OnlyRightfulHolders | embry0/cache/volume_manager.py:363-371 | The containers a job clean-up force-removes mount the deployment's own volume as it was read, or, exactly when the labels under the name are no longer those, an unlabelled one that took its place |
| VolumeProtocol.UnlabelledGoesIff | embry0/cache/volume_manager.py:186-206 | Without adoption a removal takes a volume without an instance label exactly when the labels are no longer those that were read |
| VolumeProtocol.ReplacedVolumeGoes | embry0/cache/volume_manager.py:186-206 | The run in which that happens: read, removed from outside, name taken by an unlabelled volume, removed |
| VolumeProtocol.CheckProvesOurs | embry0/cache/qa_image_retention.py:233-270 | Passing the check before a recreation, a job clean-up or a retention removal means the volume is this deployment's |
| VolumeProtocol.ReaperSafe | embry0/cache/volume_reaper.py:162-199 | On any stale snapshot: when a sweep removes a volume, and ever after, the job it decided on has no row or a released status; a removed volume that is this deployment's, or labelled (or unlabelled) as what was read, is that job's; one read unlabelled was decided on for the job of its legacy name |
| VolumeReaper.Sweep | embry0/cache/volume_reaper.py:113-217 | One sweep among arbitrary steps of others is exactly its own steps with theirs between: every name is inspected, those present are decided on in order; its lists are exactly the names removed, refused and (dry run) only reported; kept counts the rest; a dry run asks for no removal |
| VolumeReaper.SweptRightfully | embry0/cache/volume_reaper.py:190-199 | Everything a sweep removed was, at that moment, unmounted and rightfully its to remove |
| VolumeRetention.RemoveIff | embry0/cache/qa_image_retention.py:233-270 | A decision on fresh reads removes exactly when the volume is this deployment's, of no live repository unless superseded, neither created nor warmed since the cutoff, and held by no container |
| VolumeRetention.RemovedOnFreshFacts | embry0/cache/qa_image_retention.py:415-443 | Whatever changes between the sweep's reads, a volume it removes or tries to was removable on facts read right before |
| VolumeRetention.SweepAccounts | embry0/cache/qa_image_retention.py:415-443 | Every volume is listed, failed or kept, exactly once, and a dry run fails none |
| VolumeRetention.SweepPlaces | embry0/cache/qa_image_retention.py:415-443 | Which it is: listed when judged removable and, but for a dry run, let go; failed when the daemon keeps it; kept otherwise |
| VolumeRetention.RetentionSweep.DecideVolume | embry0/cache/qa_image_retention.py:445-469 | One decision, await by await: unreadable facts keep the volume, only the row written for this very volume ages it |
| VolumeRetention.RetentionSweep.Volumes | embry0/cache/qa_image_retention.py:394-443 | The report and the awaits taken are those of the specified sweep; without an instance id or a reading nothing is touched and an error is noted |
| ImageRefs.QaImage | embry0/cache/qa_image_retention.py:144-173 | None exactly when no reference is a QA image's; otherwise exactly the QA references, in order, with their tags and digests, under the first of their names |
| ImageRefs.RemovalExact | embry0/cache/qa_image_retention.py:118-129 | Naming the removal references one by one never names one already gone and leaves exactly the references not asked for |
| ImageRefs.QaRemovalExact | embry0/cache/qa_image_retention.py:118-173 | A QA image loses exactly its QA references and keeps every other |
| ImageRefs.NamingAllFails | embry0/cache/qa_image_retention.py:121-126 | Naming every reference instead names a digest that its last tag took with it |
| ImageRetention.FloorExact | embry0/cache/qa_image_retention.py:212-218 | The floor is the latest of the image's creation and its own rows' builds |
| ImageRetention.ReplacedExact | embry0/cache/qa_image_retention.py:219-220 | The replacement counted is the earliest newer build of another image of the name |
| ImageRetention.RowHasBuild | embry0/storage/repositories/qa_image_tags.py:49-109 | After any history of recorded builds every row is that of a build no later one of its lockfile replaced, and is active exactly for the latest of its repository |
| ImageRetention.BuildHasRow | embry0/storage/repositories/qa_image_tags.py:86-109 | And every such build has its row |
| ImageRetention.LatestIsPinned | embry0/cache/qa_image_retention.py:212-214 | An image nothing newer replaced is pinned, so it is never removed |
| ImageRetention.RemovedEarlyIff | embry0/cache/qa_image_retention.py:210-223 | Some cutoff removes an image that was selectable since it, if and only if the image is not pinned and a row of an older build misleads |
| ImageRetention.RemovedWasUnselected | embry0/cache/qa_image_retention.py:33-40 | When bakes of a repository do not overlap, a removed image was selectable at no time since the cutoff |
| ImageRetention.OverlappedBakes | embry0/cache/qa_image_retention.py:210-223 | A history with overlapping bakes in which it was |
| TextDocuments.StructureProblems | embry0/text_documents.py:51-93 | Terminates on every graph; alias problems number edges out of reachable nodes + 1 - reachable nodes, other kinds exactly the faults of reachable nodes; the problems are those of the paths the walk comes to, in breadth-first order; none is reported if and only if the reachable graph is a tree of clean nodes |
| TextDocuments.Walk | embry0/text_documents.py:59-93 | The breadth-first walk with its seen set does this: it goes on from the first path to each node, in breadth-first order, and reports an alias at every other path it comes to |
| TextDocuments.OneReport | embry0/text_documents.py:59-93 | That fixes the whole report: kinds, places and order |
| TextDocuments.ViaIsFirst | embry0/text_documents.py:61-66 | The path a node was first reached by is the first of all paths to it in breadth-first order |
| TextDocuments.ExpandMapping | embry0/text_documents.py:67-90 | One mapping: exactly its merge keys, non-text keys and keys written before, in order and place, and exactly the values of its text keys queued, duplicates included |
| TextDocuments.AcceptedIff | embry0/text_documents.py:51-93 | No problem is equivalent to: no node reached along two paths, and every key text, unique and no merge key |
| TextDocuments.AllSeen | embry0/text_documents.py:61-92 | When the queue is empty, every node any path reaches has been seen |
| TextDocuments.OnlyPath | embry0/text_documents.py:63-66 | When no popped node had been seen, every path was followed, so no two paths meet |
| AliasPlaces.OneText | embry0/text_documents.py:51-58 | Where its text writes each node out, and so where it has aliases, is determined by the composed graph |
| AliasPlaces.AliasesWhereUsed | embry0/text_documents.py:51-93 | At every place as many aliases are reported as the text has there, if and only if no alias stands less deep than its anchor, if and only if every node is written out at the first of its paths in breadth-first order |
| AliasPlaces.AnchorReported | embry0/text_documents.py:56-66 | The document {a: [&x v], b: *x}, in which the anchor's own place is reported and not the alias |
| KeyAliases.KeyAliases | embry0/text_documents.py:51-93 | A document without a problem has no node at two places, keys included, if and only if no key is another key or a node the walk reaches |
| KeyAliases.AcceptedAlias | embry0/text_documents.py:70-91 | The document {&x a: *x}, accepted with its alias |
| AuditLog.LogFile.Append | embry0/audit/logger.py:51-55 | An append adds its piece at the end and to the history |
| AuditLog.LogFile.Prune | embry0/audit/retention.py:45-76 | For any appends before any step and a failure at any step: it fails exactly where it is made to, if it gets there, and then the file is what it would have been without a prune; otherwise the file is the unexpired scanned lines followed by everything appended after the scan's end, the count exact; what was appended is exactly what landed before the steps taken, and no temp file is left |
| AuditLog.LogFile.PruneWithLiveAppender | embry0/audit/retention.py:45-76 | With whole lines and only fresh appends the result is the unexpired lines of the original file followed by every append, however the scan cut them; it fails only when made to |
| AuditLog.PruneExact | embry0/audit/retention.py:60-73 | Fresh text loses nothing wherever the scan cut it, and the first part loses exactly its expired lines |
| AuditLog.ReadLine | embry0/audit/retention.py:60 | A line read is a prefix of what is left with no newline but its last character; unterminated only at the end |
| Conversation.MergedAlternates | embry0/agents/_tool_loop.py:144-164 | After merging no two neighbouring messages could still be joined |
| Conversation.MergedFixed | embry0/agents/_tool_loop.py:144-164 | A conversation that alternates is left as it is, so merging twice is merging once |
| Conversation.MergedRunByRun | embry0/agents/_tool_loop.py:144-164 | Every message left is one run of consecutive messages of its role, in place: the first of them with the texts of all, in order; no two runs could be joined |
| Conversation.MergedKeepsCalls | embry0/agents/_tool_loop.py:144-164 | No call made or answered is lost if and only if no message that is joined to the one before it carries one |
| Conversation.MergeConsecutiveRoles | embry0/agents/_tool_loop.py:144-164 | The loop that updates the last element in place computes that merge |
| Conversation.PairedShape | embry0/agents/context_fit.py:55-61 | Changing contents alone keeps every call paired with its result |
| ContextFit.FitMessages | embry0/agents/context_fit.py:64-99 | The result is the conversation with exactly the tool results before some cut-off elided, the first cut-off that fits; it raises exactly when no allowed cut-off fits |
| ContextFit.CutKeeps | embry0/agents/context_fit.py:73-95 | At any cut-off the length, the first message, everything that is no tool result and the latest exchange are unchanged, and so are roles, calls and call ids |
| ContextFit.CutTwice | embry0/agents/context_fit.py:89-93 | Fitting a fitted conversation elides only what is new: an elided result keeps the size first recorded |
| ContextFit.Elided | embry0/agents/context_fit.py:55-61 | The placeholder keeps the message's role and call id and is never elided again |
| ContextFit.AnswerReserve | embry0/agents/context_fit.py:45-47 | Between 1,024 and 8,192, an eighth of the window in between |
| ContextFit.CalibratedRatio | embry0/agents/context_fit.py:102-110 | The ratio never falls below half the default and never under-counts the request it was measured on |
| ContextFit.FitBoundsChars | embry0/agents/context_fit.py:80-86 | While the ratio is safe, a request let through is bounded by the window's budget |
| ToolLoop.DecodeCall | embry0/agents/executor_openai.py:125-143 | Every call gets a non-empty id, the server's if it gave one; it is decodable exactly when its arguments are an object or absent |
| ToolLoop.Wire.TakeTurn | embry0/agents/executor_openai.py:198-271 | What goes out is the conversation cut at the first allowed point that fits the window by the ratio of before; refused exactly when no cut fits; the ratio is recalibrated on what was sent and stays safe |
| ToolLoop.ExecutionsExact | embry0/agents/_tool_loop.py:347-404 | A call is run exactly when it decodes and the gate allows it |
| ToolLoop.RunCalls | embry0/agents/_tool_loop.py:347-406 | The results are exactly one per call in call order, each given the executions before it; the tallies count every call by name and every denial by its key |
| ToolLoop.TranscriptPaired | embry0/agents/_tool_loop.py:336-406 | The conversation the answers lead to is its start followed by tool-calling turns, each answered in order by exactly one result per call with that call's id |
| ToolLoop.SentSound | embry0/agents/_tool_loop.py:303-408 | Whatever was elided to fit them, all requests of a run are well formed and each carries everything the ones before it carried |
| ToolLoop.SentFits | embry0/agents/context_fit.py:80-110 | Every request of a run with a known window fits it by the ratio of its own turn, with the answer's reserve, and is bounded at half the default ratio, however the ratio was recalibrated |
| ToolLoop.RunTurn | embry0/agents/_tool_loop.py:303-406 | One turn: the request sent and how it is answered; the calls begun, all of them or up to the one in which the time runs out, executed and tallied; the results sent back only when every call is answered |
| ToolLoop.RunToolLoop | embry0/agents/_tool_loop.py:303-420 | For any answers, gate, tools and window: request k is the conversation after k answers, cut at the first point that fits by the ratio recalibrated so far; exactly the decodable, allowed calls begun were executed, in order; the tallies are exact; and the run ends by its turns, its time (before an answer or in a call that waits), an unfit conversation, an error or an answer without calls exactly where the answers lead there |
| ProviderLimits.FailureFromText | embry0/agents/provider_limits.py:184-198 | Only a spent window carries a reset, and it is never a structured one; out-of-usage wording overrides the flag |
| ProviderLimits.FailureFromRateLimitInfo | embry0/agents/provider_limits.py:210-232 | A failure exactly for a rejection that does not continue on extra usage; a spent window exactly when it names one, with the earliest of the resets that are known |
| ProviderLimits.FoldDescribed | embry0/agents/provider_limits.py:238-260 | Folding any signals the two constructors built: first code, upgraded from rate limit to quota by any quota signal; first real sentence, else first composed text; first structured reset, else first textual one, and none unless the code is quota |
| ProviderLimits.FirstIsFirst | embry0/agents/provider_limits.py:238-246 | What the description calls first is said by the signal before which none says anything |
| ProviderLimits.QuotaAbsorbs | embry0/agents/provider_limits.py:249-251 | A spent window stays spent, whatever signals follow |
| ResetTime.ParseReset | embry0/agents/provider_limits.py:126-168 | A time alone lands within the 24 hours from now at that time of day; a full date is itself or none; a date without a year is found exactly when some year has it ahead, and is the earliest such instant |
| ResetTime.SearchYears | embry0/agents/provider_limits.py:160-168 | The search over nine years finds the earliest date at or after now, or shows there is none in any year |
| ResetTime.WithinNineYears | embry0/agents/provider_limits.py:110-111 | Whenever any year has the date ahead, one of the nine searched has |
| ResetTime.NineIsTight | embry0/agents/provider_limits.py:110-111 | From 1 March 2096, 29 February is next in 2104: eight years would not do |
| Fallback.PausedByOutputs | embry0/agents/fallback.py:164-183 | A provider is paused exactly when its latest output is an account failure, with that output's reason and reset |
| Fallback.Replan | embry0/agents/fallback.py:186-216 | For every paused provider the planned stand-in while usable, else the first eligible model of the order, else nothing; no other provider |
| Fallback.FindEligible | embry0/agents/fallback.py:132-139 | The first model whose provider is ready and unpaused, or none is |
| Fallback.StandInsUnpausedIff | embry0/agents/fallback.py:203-216 | For any plan: every stand-in is ready and not paused by a run; none is paused by plan exactly when no kept stand-in is itself a planned paused provider |
| Fallback.AbsentIff | embry0/agents/fallback.py:203-216 | A paused provider has no stand-in exactly when its planned one is unusable and no model is eligible |
| Fallback.SubstituteOnce | embry0/agents/fallback.py:142-149 | At every point of any chain of replans from a pre-check's plan, substituting twice is substituting once |
| Fallback.PlanModelFallbacks | embry0/services/credentials/fallback.py:70-117 | The pre-check's plan: for each paused provider of the job the first model of the order that no paused provider serves, or nothing |
| Fallback.PreCheckUnpaused | embry0/services/credentials/fallback.py:99-105 | It never stands in with a provider it planned as paused |
| Fallback.ReplanUnpaused | embry0/agents/fallback.py:203-216 | Replanning such a plan, whatever failed and whichever keys there are, gives another, whose stand-ins are ready and in neither paused set |
| Fallback.SubstituteTwiceIff | embry0/agents/fallback.py:142-149 | For any plan: a run moved to its stand-in stays there exactly when the stand-in's provider is unplanned or planned with the very same model |
| Skills.EffectiveComposes | embry0/agents/skills.py:52-65 | Many deltas are two batches applied one after the other; the result is duplicate-free |
| Skills.EffectiveMembers | embry0/agents/skills.py:52-65 | A name is in the result exactly when the base or a delta introduces it and no later delta drops it |
| Skills.EffectiveSkills | embry0/agents/skills.py:52-65 | The loop computes that list, or raises exactly when a delta is malformed |
| Skills.NarrowedSkills | embry0/agents/skills.py:135-174 | The exact narrowed list, hidden flag and refused names, in order, for every request; a malformed one is hidden |
| Skills.NarrowedLoads | embry0/agents/skills.py:135-174 | Name by name, what loads after narrowing is what the request keeps or is granted; duplicate-free exactly when the kept part is |
| Skills.NarrowingNeverWidens | embry0/agents/skills.py:135-174 | Nothing loads after narrowing that did not before, but may-add names of a source the list already loads; no source is gained |
| Skills.NarrowedFromDeltas | embry0/agents/skills.py:52-174 | A list that definition and template deltas give, narrowed by any request, is free of duplicates and loads nothing the list did not, but permitted additions |
| McpClient.McpStdioClient.Request | embry0/agents/mcp_client.py:263-270 | The call is written under the next number, lines are read up to the reply or all of them, and the refusals of the server requests among them follow; the rest stays unread |
| McpClient.LateReplyDropped | embry0/agents/mcp_client.py:309 | A late reply to a timed-out request is never delivered to a later one |
| McpClient.CollidingRequestRefused | embry0/agents/mcp_client.py:289-308 | A server's request is refused even when its id is one of this client's |
| McpClient.Session | embry0/agents/mcp_client.py:263-309 | Any session's responses, writes and unread lines are exactly those of its requests one after the other, whatever the server writes and when |
| McpClient.AnsweredIff | embry0/agents/mcp_client.py:267-309 | A request is answered exactly when a reply to it is among the lines before its deadline, and by the first such reply; otherwise it has read all there was, and no request of the session is ever given a reply to it |
| McpClient.SessionSound | embry0/agents/mcp_client.py:272-309 | At every point every line the server wrote was read once, in order, or is still unread; what was delivered answers the request it was delivered to |
| McpClient.RefusedOnce | embry0/agents/mcp_client.py:298-308 | The refusals written are exactly those of the server requests read, one each, in order |
| SubagentStream.Consumer.Consume | embry0/agents/executor.py:776-958 | One message writes exactly its own events, in order: the start of a parent first seen, turn and usage, the blocks or results, the end of each subagent a result closes |
| SubagentStream.MessageObserved | embry0/agents/executor.py:759-774 | To an observer of the log alone, each message keeps starts and ends bracketed and opens and closes what the consumer does; an event leaves its scope exactly when the message strays |
| SubagentStream.StreamObserved | embry0/agents/executor.py:749-958 | For every message stream its log is bracketed, leaves open the subagents the consumer holds open, and has every event inside its known parent exactly when no message strays |
| SubagentStream.ConsumeStream | embry0/agents/executor.py:749-958 | The log is what the messages read write, one after the other, with all that holds of it; reading ends at the first successful result and not before |
| SubagentStream.BracketCounts | embry0/agents/executor.py:759-773 | In such a log, at every point, a subagent's starts exceed its ends by one while it is open and by none otherwise |
| SubagentStream.Alternates | embry0/agents/executor.py:771-773 | Between two starts of one subagent stands an end |
| SubagentStream.ResultAfterOwnEnd | embry0/agents/executor.py:939-958 | A message with its own parent's result before another result strays; in the other order it does not |
| DigestCache.Classify | embry0/cache/prebaked_staleness.py:70-73 | Unknown exactly without a recorded or a current digest; stale only when both are known and differ |
| DigestCache.OneRefreshPerImage | embry0/cache/prebaked_staleness.py:168-171 | At every point of every run at most one refresh runs for an image, none for a pinned one, and whoever waits, waits on a running refresh of the image it asked for |
| DigestCache.AnswersJustified | embry0/cache/prebaked_staleness.py:156-182 | In every run each answer is to a question that was asked, at its time, and about its image: the pin; what the image's last refresh to end before it gave, within its kind's time to live; or what the image's first refresh to end after it gives, each a refresh that was running |
| DigestCache.EveryCallerOnce | embry0/cache/prebaked_staleness.py:156-173 | At every point of every run each caller is answered once, still waiting, or gone, and in one of these places only |
| DigestCache.GoneGaveUp | embry0/cache/prebaked_staleness.py:172-173 | Only a caller that gave up is gone: a shielded refresh loses no one |
| DigestCache.Interleave | embry0/cache/prebaked_staleness.py:128-182 | The resolver's methods under any interleaving of callers, cancellations, refreshes that end and time reach exactly the state these results are about |

## Left out

- Deployments whose instance id is unresolved, in `VolumeProtocol`: they share one name space without an instance label; `VolumeManager` covers their calls, one deployment at a time.
- Adoption of unlabelled legacy volumes on a daemon that another deployment shares: a sweep that adopts may remove the other's unlabelled legacy volume, as the option says.
- Listing and label-read failures of the volume manager (read as a mismatch or raised) and inspecting names in chunks; an inspection here is of one name.
- VolumeReaper.Sweep: the listings' filters are not modelled, any list of distinct names may be inspected; the row deletion after a removal is in VolumeManager and VolumeRetention.
- VolumeProtocol.StepInv: the state rows are not part of this state machine (VolumeManager.StaleIff has their interleavings); the row and live repositories a retention check reads are arbitrary there.
- Creation of Maven cache volumes, the image half of the retention sweep's loop, disk-usage totals and report items other than names.
- An image that carries several QA names, in `ImageRetention` only (its first name is taken there); parsing of reference strings; the manual deactivation of image rows.
- Lower-casing of repository names outside ASCII.
- Zones other than UTC, the reset sentence's regular expression, and the overflow of a time-only reset on the last day of year 9999.
- AuditLog.LogFile.Prune: a missing file (zero is returned) and a process kill that leaves the temp file; a kill before the rename leaves the log as the failure case does.
- Aliases inside a merge key's value or a key that is not text, in `AliasPlaces`: the walk does not go there, and reports the key itself.
- The wording of problems and their line numbers, JSON duplicate keys and text differences (`text_documents.py` below line 95).
- Events, costs, usage totals, captured transcripts and retries of the tool loop; running out of answers stands for a timeout between turns. The Anthropic wire.
- Message fields other than role, content, calls and call ids; the JSON a content dumps to is given.
- Writes to the MCP server that fail, closing the process, and ids of another JSON type that compare equal to a number.
- DigestCache.Interleave: a refresh that raises, or is itself cancelled, is not modelled.
- The sorted order in which a plan's providers are visited; a plan is a map, which has none.
- The check of the may-add list's names, similar-name suggestions, and the filter of fallback models an agent can run on.
- Configuration, API routes, middleware, redaction, tokens and build scripts: other concerns, or easy members.
