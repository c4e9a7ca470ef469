# KuberDock: verified models of its algorithms and protocols

KuberDock is a hosting platform on top of Kubernetes. Most of its code passes requests between Kubernetes, etcd, Redis
and SQL, but a number of self-contained algorithms and protocols decide whether the platform is right. This project
models those in Dafny and proves what they are for, over every input, every run or every interleaving:

- **Template engine of predefined applications** (`TemplateText.dfy`, `TemplateMatch.dfy`, `TemplateFill.dfy`,
  `Plans.dfy`). Fields become
  random uids, the document is loaded, and `fill` puts values back; `is_template_for` runs the other way with a worklist;
  plans are expanded, priced and applied. Preprocessing followed by filling is one simultaneous substitution; the
  worklist accepts exactly the documents that one assignment fits; the priced totals are the applied totals.
- **Resumable watch listener** (`Listener.dfy`). A step machine over an event log, with refused and lost connections,
  failing handlers, failing cursor writes, rewinds and process restarts chosen by the environment.
- **Free public IP counter and exclusive tasks** (`NodeCounter.dfy`, `ExclusiveTask.dfy`). Optimistic concurrency with
  bounded retry, and a lock that expires, as interleaved steps of any number of clients.
- **Server-sent events** (`EventStream.dfy`). The bounded cache, and a subscriber that subscribes, replays and follows.
- **Network policies** (`NetworkPolicies.dfy`, `PortPolicies.dfy`). The generated tiers get an evaluator, and the verdict
  on every packet is derived for any number of nodes, hosts and port rows, in every order of equal-order policies.
- **Sequence, interval and string algorithms**: backup grouping and merging (`BackupMerge.dfy`), the blocks of an IP pool
  (`IpPool.dfy`), quota project ids (`FsLimit.dfy`, `ProjectLines.dfy`), image references (`Images.dfy`), certificate names
  (`CertNames.dfy`). `Sorting.dfy`, `Letters.dfy` and `Wrappers.dfy` are shared.

Each external system is a small state machine with its assumptions stated in the module that uses it. Code that changes
state is a class whose methods are proved against a function or a relation on the abstract state; the theorems are about
that function or relation. `dafny verify dfyconfig.toml` checks everything.

## What the proofs show about the code

Some promises hold only under a condition. Each of these has a lemma that gives a failing input and a theorem that says
when the promise holds.

- A skip of an event is justified by ten exceptions, but these need not come from its handler: ten lost connections make
  the listener skip an event that was never handed to the handler (`Listener.SkipWithoutAnyAttempt`), and so do the
  failures of an event that a rewind has left behind (`Listener.RewindCarriesTheBudget`). In every run the handler of a
  skipped event failed ten times since the cursor last moved if and only if the first ten exceptions since then all came
  from a handler (`Listener.SkipsExplainedInAnyRun`); when only handlers fail that is always so
  (`Listener.HandlerFaultsEarnSkips`).
- An event can be committed twice. After any run with forward rewinds, a committed event can be committed again without
  any further fault if and only if the cursor is still in front of it, and then a fault (a failing cursor write, or the
  end of the process) came right behind each of its commits (`Listener.CommitsAgainIff`). `Listener.FaultAfterCommitRepeats` is a
  run with a second commit; when the faulted commit was the tenth attempt, the event is skipped instead
  (`Listener.FaultInTheLastAttemptSkips`).
- `exclusive_task` says that there is only one running task of a name at any moment. Bodies overlap once the first
  overruns its timeout (`ExclusiveTask.OverrunOverlaps`); what holds is that at most one is within its timeout. A
  worker owns its lock exactly while it is within the timeout (`ExclusiveTask.OwnsExactlyInTime`). The release raises
  exactly when Redis has dropped the lock by the moment of the release although the wrapper, which reads its clock
  later than the acquisition and earlier than the release, counts less than the timeout
  (`ExclusiveTask.ReleaseRaisesExactly`).
- `get_channel_key` with a size of one never evicts, because the slice it deletes is empty
  (`EventStream.SizeOneNeverTruncates`); the bound holds exactly for sizes of two and more.
- A message reaches the client twice exactly if it was published after the subscription, is above the client's last id
  and was in the cache that the replay read (`EventStream.DeliveredTwiceExactly`).
- Parsing a printed image reference gives the same image back if and only if it is not a Docker Hub repository
  `library/` followed by nothing or by a name with a slash (`Images.RoundTrip`).
- A name given to `fslimit.py` twice keeps its project id if and only if the second run lists it
  (`FsLimit.KeepsIdIffListed`), for which it must be canonical (`FsLimit.SecondRunMovesIff`): a container name without a
  slash, or a storage name that starts with the storage directory (`FsLimit.CanonicalExactly`). An existing storage
  directory whose parent is not named by a number is not listed and gets a new id (`FsLimit.UnlistedDirectoryMoves`),
  relative storage names, which the usage text offers, get one in every run (`FsLimit.RelativeStorageNameMoves`), and an
  absolute name outside the storage directory gathers ids (`FsLimit.StorageElsewhereGathersIds`).
- The two files of `fslimit.py` keep the same ids if and only if no empty name is added, as by the argument `=1g`, whose
  line is not read back (`FsLimit.RunKeepsConsistentIff`, `ProjectLines.ProjidReadsBack`).
- Plan disks are checked against all volumes but applied to persistent ones only, so a plan can price a disk that
  nothing gets (`Plans.NonPersistentDiskIsPriced`); the difference is given exactly.
- In `is_template_for`, a list or mapping of the template that meets a value of another kind raises an error instead of
  giving the answer no, because the membership test hashes it (`TemplateMatch.Matcher.CompareWithAnotherKind`). If nothing
  else fails to fit, the comparison raises exactly when such a pair can be reached
  (`TemplateMatch.Matcher.IsTemplateFor`).
- A document filled with a value that has a line break may not be recognised (`TemplateMatch.LineBreakRejected`). A
  template recognises every document filled from it, whatever the values, if and only if in each of its strings, behind
  the first field, every literal character is a line break and no two are adjacent
  (`TemplateMatch.RecognisedWhateverTheValues`); with values of one line every template does
  (`TemplateMatch.FilledFits`). Values remembered on entities persist, so a second document with other values is refused
  by the same application object (`TemplateMatch.Matcher.CompareFilled`).
- The default of a template field loses its leading backslashes only when the full form is the first occurrence of the
  field (`TemplateText.EntityExact`).

## Model

| member | source | states |
|---|---|---|
| TemplateText.MatchFieldExact | kubedock/kapi/apps.py:53-62 | the parser finds a match at the start of a text exactly when the grammar of the field expression has one there, and that match is unique |
| TemplateText.TokensCover | kubedock/kapi/apps.py:1006 | the left-to-right scan loses no character: the sources of the tokens are the template |
| TemplateText.TokensScan | kubedock/kapi/apps.py:1006 | at every place of the template the scan takes a field or an escape exactly if the expression matches there, and one character otherwise |
| TemplateText.ScanIsUnique | kubedock/kapi/apps.py:1006 | a token list with that property is the scan of its own text, so the scan is the only one |
| TemplateText.NameCharacters | kubedock/kapi/apps.py:55 | the characters of a field name are the ASCII letters, digits, underscore and hyphen |
| TemplateText.ScanExample | kubedock/kapi/apps.py:53-62 | the scan of a template with a full-form field, a character and an escape |
| TemplateText.RenderExact | kubedock/kapi/apps.py:985-1002 | in the rendered text a character stands for itself, an escape for one dollar and a field for its value, in place |
| TemplateText.StripExact | kubedock/kapi/apps.py:1177-1178 | stripping a default takes away all leading backslashes and nothing else |
| TemplateText.EntityExact | kubedock/kapi/apps.py:985-1002 | after the pass an entity exists exactly for each field name, with its own uid and the default of its first full-form occurrence, backslashes stripped exactly when that is its first occurrence |
| TemplateText.FirstDefaultAt | kubedock/kapi/apps.py:985-1002 | by position: the default of a field is that of its first full form, stripped exactly if no other occurrence of the field comes before it |
| TemplateText.NoDefaultExactly | kubedock/kapi/apps.py:985-1002 | a field has no default exactly if no full form of it occurs |
| TemplateText.SecondPassChangesNothing | kubedock/kapi/apps.py:991-994 | preprocessing again after a call that raised leaves every entity as it is |
| TemplateText.ReplaceStep | kubedock/kapi/apps.py:1064-1071 | with fresh uids, one textual replacement substitutes exactly the occurrences of one field, and the uid is found in the text exactly when the field occurs |
| TemplateText.ResolvedIsDirect | kubedock/kapi/apps.py:1067-1070 | the text put in for an entity is the supplied value, else the default of the first full form; there is none exactly when both are missing |
| TemplateText.PredefinedApp.GetPreprocessedTemplate | kubedock/kapi/apps.py:979-1019 | the result is the template with every field replaced by its uid and `$$` by `$`; it raises exactly when errors are thrown and some field has no full form; a second call agrees with the first |
| TemplateText.PredefinedApp.FillEntity | kubedock/kapi/apps.py:1064-1071 | one turn of the entity loop substitutes one more field, records the entity as used exactly when it occurs, and fails exactly when it occurs without value and default |
| TemplateText.PredefinedApp.FillString | kubedock/kapi/apps.py:1063-1072 | for any string scalar and any iteration order of the entity dictionary, the result is the simultaneous substitution and the used entities are the fields of the scalar |
| TemplateText.PredefinedApp.FillTemplateText | kubedock/kapi/apps.py:979-1072 | preprocessing and filling equal direct simultaneous substitution of supplied values and first defaults; the error case is characterised exactly |
| TemplateMatch.PrefixExact | kubedock/kapi/apps.py:385-389 | a string passes the generated expression exactly when it starts with the template string filled with some texts without line breaks |
| TemplateMatch.EqualFits | kubedock/kapi/apps.py:376-377 | the shortcut for equal trees is sound: an equal tree fits under every assignment |
| TemplateMatch.FieldTakesScalars | kubedock/kapi/apps.py:394-399 | a whole field takes every document but lists and mappings, and then exactly the value assigned to it |
| TemplateMatch.ChildrenFit | kubedock/kapi/apps.py:378-393 | replacing two containers by their pairs keeps the set of fitting assignments, and giving up loses none |
| TemplateMatch.ChildrenClash | kubedock/kapi/apps.py:378-395 | a pair that raises can be reached from two containers exactly when it can be reached from one of the pairs pushed for them |
| TemplateMatch.ChildrenFitOrClash | kubedock/kapi/apps.py:378-393 | two containers that fit apart from raising pairs are never given up on, and neither are the pairs pushed for them |
| TemplateMatch.FitsWithoutClash | kubedock/kapi/apps.py:374-402 | a document fits exactly if it fits with raising pairs admitted and none can be reached |
| TemplateMatch.ChildrenShrink | kubedock/kapi/apps.py:374-393 | every push makes the worklist lighter, so it terminates, also when lists are compared with strings |
| TemplateMatch.FitsNeverClash | kubedock/kapi/apps.py:394-401 | from a document that fits, the comparison that raises is never reached |
| TemplateMatch.Matcher.PopEntries | kubedock/kapi/apps.py:378-384 | popping keys from the right mapping succeeds exactly when the key sets are equal, and pairs the values by key |
| TemplateMatch.Matcher.Step | kubedock/kapi/apps.py:374-401 | one turn keeps the set of assignments that extend the remembered values and fit, raises or pushes a raising pair exactly when one could be reached, and gives up only on what fits under no assignment even with raising pairs admitted |
| TemplateMatch.Matcher.IsTemplateFor | kubedock/kapi/apps.py:370-402 | terminates and accepts exactly when some assignment extending the remembered values fits the tree; the values left are the least such assignment; it raises only when a list or mapping meets a value of another kind, and exactly then if the rest of the tree fits |
| TemplateMatch.Matcher.CompareWithAnotherKind | kubedock/kapi/apps.py:394-401 | a list against a number, nothing or a mapping, and a mapping against anything but a mapping, raise |
| TemplateMatch.FilledFits | kubedock/kapi/apps.py:1055-1079 | a tree filled with scalar values of one line fits its template under every assignment that gives its fields those values |
| TemplateMatch.FilledFitsExactly | kubedock/kapi/apps.py:1055-1079 | a filled tree fits its template under exactly the assignments that give its fields the filled values, if every string recognises its filled text, and under none otherwise |
| TemplateMatch.Matcher.CompareFilled | kubedock/kapi/apps.py:370-402 | the comparison of a filled tree with its template never raises, and accepts exactly when every string recognises its filled text and no whole-field entity remembers another value |
| TemplateMatch.LineBreakRejected | kubedock/kapi/apps.py:385-389 | one template and one value with a line break for which no assignment fits the filled document |
| TemplateMatch.RecognisedWhateverTheValues | kubedock/kapi/apps.py:385-389 | a template recognises the trees filled from it for all values, line breaks included, if and only if in each string, behind the first hole, every literal is a line break and no two literals are adjacent |
| TemplateMatch.LooseMatches | kubedock/kapi/apps.py:385-389 | holes and separated line breaks match the start of every text with enough line breaks |
| TemplateMatch.LagIsNeverMadeUp | kubedock/kapi/apps.py:385-389 | values of two lines put the matcher behind, and it never catches up with another kind of string |
| TemplateFill.FillScalar | kubedock/kapi/apps.py:1063-1072 | the replacement loop on the text with uids gives the filled pieces, records the entities of the string, and fails exactly when one of them has neither value nor default |
| TemplateFill.DefinedExactly | kubedock/kapi/apps.py:1172-1195 | the entities that are defined after preprocessing are exactly those with a full form somewhere in the template |
| TemplateFill.FillTree | kubedock/kapi/apps.py:1055-1077 | the recursive fill returns the filled tree, records exactly the entities of the tree as used, and fails exactly when an entity in a string has neither value nor default or an entity that stands alone was never defined |
| TemplateFill.FillAndCompare | kubedock/kapi/apps.py:370-402 | a tree filled by the loops of the code is accepted exactly when every string recognises its filled text and no remembered value differs, and never raises |
| Plans.ExpansionIsIdempotent | kubedock/kapi/apps.py:785-798 | expanding an expanded list changes nothing |
| Plans.EqualizedShape | kubedock/kapi/apps.py:1085-1101 | the expanded list is the plan's items with their names and amounts, a missing amount being one, then one item for each name left |
| Plans.EqualizedCovers | kubedock/kapi/apps.py:785-798 | every name of the specification has an amount in the expanded list |
| Plans.EqualizedDistinct | kubedock/kapi/apps.py:785-798 | expansion of distinct names gives distinct names |
| Plans.AppliedIsTotal | kubedock/kapi/apps.py:739-743 | what the targets get plus what goes to names that are no targets is the total that is priced |
| Plans.AppliedTotals | kubedock/kapi/apps.py:739-743 | for an expanded plan the same, with nothing astray when every plan item names a target |
| Plans.CheckNames | kubedock/kapi/apps.py:763-783 | passes exactly when the plan's names are distinct and all in the specification |
| Plans.NamesExact | kubedock/kapi/apps.py:1093-1094 | the lists of names are the names of the containers, of the volumes and of the persistent volumes |
| Plans.Equalize | kubedock/kapi/apps.py:785-798 | the loop that edits the plan's list computes the expanded list |
| Plans.Spec.UpdateKubes | kubedock/kapi/apps.py:650-663 | exactly the containers the plan names get its kubes, in place; all others and all other data stay |
| Plans.Spec.UpdateVolumes | kubedock/kapi/apps.py:680-693 | exactly the persistent volumes get the plan's size, one when it names none; other volumes stay |
| Plans.ExpandAndApplyKubes | kubedock/kapi/apps.py:650-663 | for a checked plan over distinct containers, the kubes priced are the kubes in the specification after the plan is applied |
| Plans.ExpandAndApplyDisks | kubedock/kapi/apps.py:680-693 | the disk size priced is the disk size applied plus exactly what the plan gives to volumes that are not persistent; equal when it names persistent ones only |
| Plans.NonPersistentDiskIsPriced | kubedock/kapi/apps.py:1164-1166 | a plan accepted by the name check whose disk is priced in full and applied nowhere |
| Listener.NextEventIsNext | kubedock/listeners.py:526-528 | the server streams the events above a version without gap |
| Listener.NextKeepsSafe | kubedock/listeners.py:516-588 | every step keeps the position in the stream, the meaning of the retry counter and the justification of skips; every step but a rewind keeps the no-loss property |
| Listener.RunKeepsSafe | kubedock/listeners.py:508-589 | the same over whole runs |
| Listener.NoSilentLossInAnyRun | kubedock/listeners.py:508-589 | in every run without a rewind each unfiltered event from the saved cursor on, or from the version listed for the first connection when none was saved, up to the cursor was committed or skipped; in every run a skip follows at least MAX_ATTEMPTS exceptions of the process since the cursor moved |
| Listener.StartIsRight | kubedock/listeners.py:522-531 | a run starts at the saved cursor, or at the version listed for its first connection, and never forgets it |
| Listener.SkipWithoutAnyAttempt | kubedock/listeners.py:559-578 | any number of lost connections from ten on makes the listener skip an event whose handler was never called |
| Listener.SkipsExplainedInAnyRun | kubedock/listeners.py:554-588 | in every run, at every skip, the only handler that failed since the cursor last moved is that of the skipped event, and it failed MAX_ATTEMPTS times if and only if the first MAX_ATTEMPTS exceptions since then all came from a handler |
| Listener.HandlerFaultsEarnSkips | kubedock/listeners.py:554-588 | in every run in which only handlers fail and processes die, every skipped event had MAX_ATTEMPTS failures of its own handler |
| Listener.RewindCarriesTheBudget | kubedock/listeners.py:547-560 | failures of one event make the listener skip, behind a forward rewind, another one whose handler was never called |
| Listener.NextKeepsBounded | kubedock/listeners.py:543-588 | with forward rewinds no step moves the cursor back, and the attempts on an event never exceed MAX_ATTEMPTS |
| Listener.BoundedAttemptsAndSingleCommit | kubedock/listeners.py:543-588 | over every run with forward rewinds: the cursor never moves back, at most MAX_ATTEMPTS failing attempts per event and process; without a fault after a commit no event commits twice |
| Listener.RepeatNeedsFault | kubedock/listeners.py:559-588 | in every run with forward rewinds behind each commit there is a fault or the cursor has passed the event, and an event is committed again only if a fault came right behind its earlier commit |
| Listener.CommitsAgainIff | kubedock/listeners.py:554-588 | after every run with forward rewinds, a committed event can be committed again by a continuation without further faults if and only if the cursor is in front of it, and then a fault came right behind each of its commits |
| Listener.RunKeepsOpen | kubedock/listeners.py:554-588 | in every run with forward rewinds a committed event that the cursor has not passed is the next one to be handed out |
| Listener.Reaches | kubedock/listeners.py:543-574 | a connection receives the filtered events in front of the next one and commits it |
| Listener.PassedStaysPassed | kubedock/listeners.py:554-574 | an event behind the cursor is never committed again, whatever happens |
| Listener.FaultAfterCommitRepeats | kubedock/listeners.py:559-578 | one run in which a failing cursor write is followed by a second commit of the event |
| Listener.FaultInTheLastAttemptSkips | kubedock/listeners.py:559-578 | one run in which the faulted commit was the last attempt and the event is skipped instead of committed again |
| Listener.TurnsAreBounded | kubedock/listeners.py:554-578 | a run with forward rewinds, from any saved cursor or none, hands out at most MAX_ATTEMPTS + 1 turns per pending event (per event when none is saved), plus MAX_ATTEMPTS per restart and one per failing cursor write or failing notification of a skip (both for a death behind a commit), so an event that always fails is passed |
| Listener.FailuresAreTurns | kubedock/listeners.py:554-588 | a handler that fails n times, within the budget, costs exactly n turns |
| Listener.Process.Take | kubedock/listeners.py:557-578 | the inner loop body with its transaction refines the handling step: commit, skip, cursor write and retry reset in this order, under every fault |
| Listener.Process.Follow | kubedock/listeners.py:543-574 | the inner loop, left by the break behind a cursor reset or by an exception, refines the same machine for the choices it consumes |
| Listener.Process.Listen | kubedock/listeners.py:508-589 | the outer loop (connect, continue when refused, catch, inner loop) refines the step machine for every sequence of choices of the environment |
| NodeCounter.TotalUpdate | kubedock/kapi/node.py:91-123 | a step of one call changes the sum over returned calls by exactly that call's delta |
| NodeCounter.NextKeepsInv | kubedock/kapi/node.py:91-123 | every step of any call or foreign writer keeps the invariant that ties lock, versions, retries and counter |
| NodeCounter.CounterIsConserved | kubedock/kapi/node.py:78-123 | in every interleaving the counter is its start plus the deltas of exactly the calls that returned plus the foreign changes; no call wrote a negative count; an update failure means at least max_retries foreign writes during the call |
| NodeCounter.WritesAreRight | kubedock/kapi/node.py:103-116 | in every interleaving an applied write puts the count of the moment plus the delta of its call, which is never negative, and the call returns |
| NodeCounter.ApiServer.Put | kubedock/kapi/node.py:78-89 | a write with a stale version changes nothing and is reported as a conflict; any other is applied |
| NodeCounter.ApiServer.Round | kubedock/kapi/node.py:103-116 | one round and its interference: each outcome under exactly its condition, as a run of the interleaved machine |
| NodeCounter.ApiServer.Increment | kubedock/kapi/node.py:91-123 | the retry loop: every round before the last met a foreign write between fetch and write; the last one added the delta to what foreign writers left, or raised for a named reason and changed nothing; the call with its interference is a run of the interleaved machine |
| NetworkPolicies.ArrangedVerdict | kubedock/kapi/network_policies.py:223-226 | if all deciding policies that could come first agree, their verdict holds in every evaluation order |
| NetworkPolicies.TierDefault | kubedock/kapi/network_policies.py:223-226 | a tier that matches nothing drops the packet exactly if one of its policies selects the endpoint |
| NetworkPolicies.PortRuleVerdicts | kubedock/kapi/network_policies.py:269-293 | exactly which packets the rules made from port lists allow and deny |
| NetworkPolicies.FailsafeVerdict | kubedock/kapi/network_policies.py:411-442 | exactly which packets the failsafe policy allows, in both directions; all others go to the next tier |
| NetworkPolicies.HostsTierVerdict | kubedock/kapi/network_policies.py:145-179 | the hosts tier accepts inbound packets exactly from registered hosts and their tunnels and passes everything else on |
| NetworkPolicies.NodesTierForPods | kubedock/kapi/network_policies.py:218-317 | the nodes tier denies a pod's outbound packet exactly when it goes to a node or leaves the pod network on a restricted port, and passes every other on |
| NetworkPolicies.PodOutboundVerdict | kubedock/kapi/network_policies.py:320-348 | the same through all three tiers, for packets no failsafe rule allows |
| NetworkPolicies.NodesTierForNodes | kubedock/kapi/network_policies.py:356-381 | the nodes tier accepts a packet into a node exactly from master, tunnel or a node, to tcp/22 or to an allowed port, and drops every other |
| NetworkPolicies.NodeInboundVerdict | kubedock/kapi/network_policies.py:320-348 | through all three tiers, a packet from an unknown source enters a node exactly if it is ICMP, tcp/22 or to an allowed port, and is dropped otherwise |
| NetworkPolicies.OtherVerdicts | kubedock/kapi/network_policies.py:320-405 | through all three tiers: the master accepts exactly its public ports, ICMP, the tunnel into the pod network and registered hosts, and passes the rest on; everything may leave master and nodes; what enters a pod goes to the service tier unless failsafe or a registered host lets it in |
| PortPolicies.PortTable.PortsByProtocol | kubedock/kapi/allowed_ports.py:39-41 | the grouped dictionary holds exactly the rows of the table |
| PortPolicies.PortTable.PortRules | kubedock/kapi/allowed_ports.py:38-48 | the generated rules together match exactly the rows of the table, whatever the order of the dictionary |
| PortPolicies.GeneratedIsSynced | kubedock/kapi/restricted_ports.py:55-60 | a policy made of such rules says what the table says |
| PortPolicies.RowOfSpelling | kubedock/kapi/allowed_ports.py:75-82 | the row of a request is that of the protocol its name spells in any case, and two requests are about one row exactly if ports are equal and names differ in case at most |
| Letters.LettersExactly | kubedock/kapi/allowed_ports.py:76 | the characters taken for the same are the equal ones and the two cases of one letter of the alphabet |
| Letters.LowerExactly | kubedock/certificate_utils.py:62 | comparing two texts in lower case is comparing them letter by letter ignoring case |
| PortPolicies.PortTable.SetPort | kubedock/kapi/allowed_ports.py:55-94 | each outcome under exactly its condition; on success the row is added and the stored policy says what the table says, whatever earlier failures left |
| PortPolicies.PortTable.DelPort | kubedock/kapi/restricted_ports.py:97-141 | each outcome under exactly its condition, the missing policy included; on success one row is gone and the stored policy, deleted with the last row, says what the table says |
| PortPolicies.PortTable.OpenPort | kubedock/kapi/allowed_ports.py:75-94 | after a normal return every node accepts packets of the protocol spelled to the port given |
| PortPolicies.PortTable.ClosePort | kubedock/kapi/allowed_ports.py:97-141 | after a normal return nodes drop such packets from unknown sources, tcp/22 excepted |
| PortPolicies.PortTable.Calls | kubedock/kapi/allowed_ports.py:75-141 | after any run of calls the table holds exactly what the committed requests leave, and if the last one returned normally the stored policy says what the table says |
| PortPolicies.ClusterFollowsTables | kubedock/kapi/network_policies.py:255-293 | a tcp or udp packet from an unknown source enters a node exactly if it goes to tcp/22 or to a row of the allowed table; a pod packet is denied exactly as the nodes and the restricted table say |
| ExclusiveTask.NextKeepsInv | kubedock/kd_celery.py:65-97 | every step of any worker, probe or clock keeps the invariant that ties tokens, locks and running bodies |
| ExclusiveTask.AtMostOneInTime | kubedock/kd_celery.py:65-97 | in every interleaving at most one body of a name runs within its timeout, and of two that overlap the earlier has overrun |
| ExclusiveTask.OwnsExactlyInTime | kubedock/core.py:95-112 | in every run a worker owns its lock exactly while it is within its timeout |
| ExclusiveTask.FinishFreesOnlyItsOwn | kubedock/core.py:108-112 | in every run a finisher, however late, leaves another worker that is within its timeout in possession of its lock |
| ExclusiveTask.PunctualFinishFrees | kubedock/kd_celery.py:80-86 | a body whose release comes in time leaves its lock free |
| ExclusiveTask.ReleaseRaisesExactly | kubedock/kd_celery.py:73-86 | the release raises exactly when, at the moment of the release, the lock has expired since its acquisition, although the two times the wrapper read are less than the timeout apart |
| ExclusiveTask.OverrunOverlaps | kubedock/kd_celery.py:35-44 | for every positive timeout there is a run in which two bodies of a name overlap |
| ExclusiveTask.CleanLocksBreaksExclusion | kubedock/core.py:131-144 | removing the locks during a run lets two bodies run in time |
| ExclusiveTask.EnterExactly | kubedock/core.py:95-106 | a free lock becomes the caller's for its timeout, or for good without one; a held one makes it return at once, or wait when it is blocking, and stays as it is |
| ExclusiveTask.Lifecycle | kubedock/kd_celery.py:71-86 | a call that gets the lock is over after its release and leaves the lock free, whatever time body and release take; the release raises exactly if the lock expired in between |
| ExclusiveTask.DeathKeepsTheLock | kubedock/kd_celery.py:79-86 | a worker that dies changes no lock |
| ExclusiveTask.ProbeLeavesNoTrace | kubedock/core.py:114-129 | the test whether a lock is held takes a free lock for a second at most and leaves all locks as it found them |
| ExclusiveTask.Workers.Acquire | kubedock/core.py:95-106 | a held lock is refused, a blocking caller waits, and a free or expired lock is given with a new token |
| ExclusiveTask.Workers.Finish | kubedock/kd_celery.py:80-86 | the conditional, token-checked release refines the finishing step |
| ExclusiveTask.Workers.Execute | kubedock/kd_celery.py:65-97 | any schedule of workers, probes, crashes and time refines the step machine |
| EventStream.CachedIdsExact | kubedock/utils.py:148-164 | after n sends the cached ids are exactly the last min(n, size) ending at n, for every size from two on |
| EventStream.SizeOneNeverTruncates | kubedock/utils.py:161-163 | with a size of one every id stays cached |
| EventStream.SizeZeroKeepsTheNewest | kubedock/utils.py:161-163 | with a size of zero exactly the newest id stays cached |
| EventStream.DefaultCache | kubedock/utils.py:148 | with the default size the cache holds the last hundred ids |
| EventStream.CacheIsBoundedIff | kubedock/utils.py:161-163 | the cache stays within its size exactly when that is at least two |
| EventStream.Channel.GetChannelKey | kubedock/utils.py:148-164 | the next id, and the cache cut to the newest ids with their messages unchanged |
| EventStream.Channel.Send | kubedock/utils.py:220-225 | the message is stored under the next id and no other kept message changes |
| EventStream.Channel.SendAll | kubedock/utils.py:208-225 | after n sends on a new channel the cache holds exactly the ids of the last min(n, 100) |
| EventStream.Channel.Replay | kubedock/core.py:225-235 | the replay lists exactly the cached ids above the last id, in increasing order |
| EventStream.RunKeepsInv | kubedock/core.py:210-247 | in every interleaving of a sender and a subscriber the live messages are consecutive from the subscription on and the cache is cut no deeper than its size allows |
| EventStream.RunFollowsChannel | kubedock/utils.py:220-225 | in every interleaving the cache is the one that so many sends leave, exactly between storing and publishing and otherwise up to evictions already done |
| EventStream.SendStepsSend | kubedock/utils.py:220-225 | the evictions, the store and the publication of one send amount to one send on the channel |
| EventStream.NothingLostUnlessEvicted | kubedock/core.py:210-247 | once a client has replayed, it misses a published id above its last one exactly when the id was published before it subscribed and was evicted before it read; such an id has at least size - 1 successors in the cache |
| EventStream.DeliveredTwiceExactly | kubedock/core.py:210-247 | an id comes both in the replay and live exactly when it was published after the subscription and was in the cache that was read |
| EventStream.FirstMessage | kubedock/core.py:210-247 | a client of a new channel finds nothing to replay and gets the first message live |
| BackupMerge.GroupByTimestamp | backup_node_merge.py:58-91 | the groups concatenate to the readable items in order and are greedy; an unreadable name is an error exactly when errors are not skipped |
| BackupMerge.ReadableExact | backup_node_merge.py:69-78 | the readable entries are those with a stamp, each with the time of its stamp, in the order of the listing and none left out |
| BackupMerge.ReadableMembers | backup_node_merge.py:69-78 | an item is among them exactly if its name is listed and its time is the stamp of the name |
| BackupMerge.GroupItems | backup_node_merge.py:80-91 | the grouping loop loses and reorders nothing, and every head is beyond the precision from the head before it |
| BackupMerge.GroupSpan | backup_node_merge.py:80-91 | on chronological input any two items of a group are within the precision |
| BackupMerge.HeadsApart | backup_node_merge.py:80-91 | on chronological input the heads of any two groups are more than the precision apart |
| BackupMerge.GreedyIsOptimal | backup_node_merge.py:58-91 | on chronological input no division into groups of that span, contiguous or not, has fewer groups |
| BackupMerge.StampsOfGroup | backup_node_merge.py:58-91 | for a listing in the order of its stamps, any two names of a group have stamps at most the precision apart |
| BackupMerge.FewestByStamp | backup_node_merge.py:58-91 | for such a listing no other way to group the names by that precision has fewer groups |
| BackupMerge.Backups.WillOverride | backup_node_merge.py:94-104 | true exactly when two directories of the group have a file at the same relative path |
| BackupMerge.Backups.MergeGroup | backup_node_merge.py:131-135 | the head holds exactly the files of all members with their contents, the other members are gone, and nothing else changed |
| BackupMerge.Backups.MergeGroups | backup_node_merge.py:116-135 | the loop stops exactly at the first group with overlapping files; the groups in front of it are merged and nothing else has changed |
| BackupMerge.Backups.DoMerge | backup_node_merge.py:107-135 | each outcome under exactly its condition; at every exit, the overlap error included, a prefix of the groups is merged and all else is untouched; without include_latest the last group is not in that prefix; a dry run changes nothing |
| BackupMerge.MergeKeepsOthers | backup_node_merge.py:118-135 | merging one more group keeps the groups merged before and everything outside |
| BackupMerge.NothingLost | backup_node_merge.py:107-135 | every file that existed still exists with its content, under the head of its group if that was merged and in its own directory otherwise |
| IpPool.IpListByBlocks | kubedock/kapi/ippool.py:360-374 | sorted, maximal, non-adjacent runs that expand to the original set |
| IpPool.GetMissedIntervals | kubedock/kapi/ippool.py:376-386 | exactly the addresses of the network that no block covers, each once |
| IpPool.AllocatedBlocks | kubedock/kapi/ippool.py:420-427 | one block per allocated address with its pod, blocked exactly if the address is, and the blocked set without the allocated ones |
| IpPool.GetNetworkIps | kubedock/kapi/ippool.py:413-449 | every address from network to broadcast lies in exactly one block, no other in any, and each is shown as blocked, busy or free as it is, with its pod |
| IpPool.ExactCoverIsTiling | kubedock/kapi/ippool.py:439-448 | such a sorted list is consecutive: it starts at the network address, ends at the broadcast address, and each block starts right behind the one before |
| Images.RegistryEndExact | kubedock/kapi/images.py:325 | the backtracking match of the registry group is the split at the last usable dot and the first slash at least two behind it, and there is none exactly when no dot is usable |
| Images.RepoTagSplits | kubedock/kapi/images.py:325 | what follows the registry is the printed tail, up to an explicit latest tag, and the repository holds no inner colon |
| Images.TailReadsBack | kubedock/kapi/images.py:365-367 | such a repository and tag are read back from what is printed for them |
| Images.OtherRegistriesDiffer | kubedock/kapi/images.py:308-311 | a registry that is not Docker Hub is never completed to the default registry, so printing never drops it |
| Images.ComplementExact | kubedock/kapi/images.py:308-311 | the full registry has `https://` in front exactly when there is no scheme, no slash at the end, and nothing else is taken away |
| Images.PrintDropsOnlyDefaults | kubedock/kapi/images.py:325-370 | printing what was parsed gives the reference back, up to a Docker Hub registry, the library prefix and an explicit latest tag; every non-empty reference parses |
| Images.HubReference | kubedock/kapi/images.py:337-353 | the documented Docker Hub forms: a reference without a dot is read as an official or a user's image, with its tag or the latest one |
| Images.RegistryReference | kubedock/kapi/images.py:339-356 | the documented form with a registry: read as that registry's image, or as one of Docker Hub if the registry ends in `docker.io` |
| Images.RoundTripElsewhere | kubedock/kapi/images.py:360-370 | the round trip for every image of another registry |
| Images.RoundTripHub | kubedock/kapi/images.py:360-370 | the round trip for Docker Hub, exactly when there is no clash with the dropped prefix |
| Images.RoundTrip | kubedock/kapi/images.py:325-370 | parsing what an image prints gives the same image back if and only if its Docker Hub repository is not `library/` followed by an empty or slash-containing name |
| Images.ClashExists | kubedock/kapi/images.py:360-363 | a reference that parses to such an image |
| FsLimit.ScanProjects | fslimit.py:150-167 | the loop over the text of the first file keeps, drops and collects as specified on what is read, and the maximum is that of the kept lines |
| FsLimit.ScanProjid | fslimit.py:168-177 | the loop over the text of the second file drops exactly the deleted ids and carries the maximum on |
| FsLimit.FsLimit | fslimit.py:143-187 | what is read from the two files the run writes is what is specified, for any order of the names |
| ProjectLines.ProjectReadsBack | fslimit.py:40 | a written project line is read back for every path that is not empty |
| ProjectLines.ProjidReadsBack | fslimit.py:41 | a written name line is read back if and only if the name is not empty |
| ProjectLines.ReadProjectExact | fslimit.py:40 | a line is a project line exactly if it is a number, a colon and a path that is not empty |
| ProjectLines.ReadProjidExact | fslimit.py:41 | a line is a name line exactly if it is a name that is not empty, a colon and a number |
| FsLimit.KeptLines | fslimit.py:151-167 | exactly the lines that belong to another target or whose directory is listed are kept |
| FsLimit.KeptNameLines | fslimit.py:169-177 | in the second file exactly the name lines of deleted ids go |
| FsLimit.DeletedExactly | fslimit.py:157-164 | the deleted ids are exactly those of project lines of the target that are not listed |
| FsLimit.AddedKeeps | fslimit.py:178-183 | new projects keep all old lines, distinct ids and get ids above the maximum; the files stay consistent exactly if no new name is empty |
| FsLimit.EveryNameHasAProject | fslimit.py:178-183 | after a run every name given has the project line it had, or a new id above all kept ones in both files |
| FsLimit.RunKeepsSound | fslimit.py:143-187 | a run leaves distinct ids in each file, a path for every named id, and new ids above all kept ids |
| FsLimit.RunKeepsConsistentIff | fslimit.py:143-187 | from consistent files a run leaves the same ids in both files if and only if it adds no empty name |
| FsLimit.RunKeepsPaths | fslimit.py:143-187 | with canonical names no path is recorded twice and every project whose directory is listed keeps its line |
| FsLimit.FsLimits | fslimit.py:143-187 | calling the script again and again on the files of the call before is the specified sequence of runs |
| FsLimit.RunsKeepIds | fslimit.py:143-187 | over every sequence of runs for any targets: ids stay distinct, both files keep the same ids when no name is empty, and with canonical names a project whose directory every run lists keeps its id |
| FsLimit.MissingFilesAreEmpty | fslimit.py:149 | a run without the files is a run from empty, consistent ones |
| FsLimit.CanonicalExactly | fslimit.py:77-88 | canonical are exactly the container names without a slash and the storage names that start with the storage directory |
| FsLimit.KnownIsCanonical | fslimit.py:157-165 | whatever the files hold, a name that a run takes as known is canonical |
| FsLimit.NewIdExactly | fslimit.py:178-183 | a run gives a name an id above all kept ones exactly if the name is not empty, on the command line and not known |
| FsLimit.KnownAgainIff | fslimit.py:143-187 | a name given to one run is known to the next one if and only if it is canonical and listed by then |
| FsLimit.SecondRunMovesIff | fslimit.py:143-187 | a non-empty name given to two runs gets another id in the second if and only if it is not canonical or not listed |
| FsLimit.ListedIsCanonical | fslimit.py:45-53 | every name that a target lists is canonical for it |
| FsLimit.KeepsIdIffListed | fslimit.py:97-117 | with the listings of the script, a non-empty name given to two runs gets another id in the second if and only if that run does not list it |
| FsLimit.UnlistedDirectoryMoves | fslimit.py:97-112 | a storage directory that exists and has a canonical name, but not a number as its parent, gets another id in the second run |
| FsLimit.ListingExamples | fslimit.py:45-53 | directories that are listed, and a hidden entry and an initial layer that are not |
| FsLimit.OtherNamesMoveInEveryRun | fslimit.py:143-187 | a name that is not canonical gets a new id in every run, and its path has two ids when the old line survives the clean-up |
| FsLimit.RelativeStorageNameMoves | fslimit.py:77-88 | a relative storage name gets a new id in both files in every run, whatever the files and the directories are |
| FsLimit.StorageElsewhereGathersIds | fslimit.py:157-164 | an absolute storage name outside the storage directory gets one more id in every run and keeps all the old ones |
| CertNames.SplitUnique | kubedock/certificate_utils.py:47-49 | labels without dots are what splitting their join gives back |
| CertNames.StarsExact | kubedock/certificate_utils.py:51 | the count is zero exactly without a wildcard, and above one exactly with two |
| CertNames.SameLabelByLabel | kubedock/certificate_utils.py:60-62 | equality ignoring case of whole names is equality of their labels |
| CertNames.LoneStarAgrees | kubedock/certificate_utils.py:67-70 | a lone wildcard matches exactly one non-empty label in front of equal labels |
| CertNames.WildAgrees | kubedock/certificate_utils.py:77-79 | an embedded wildcard matches exactly within the left-most label |
| CertNames.LiteralAgrees | kubedock/certificate_utils.py:71-76 | the internationalized case matches only the literal name |
| CertNames.DnsnameMatch | kubedock/certificate_utils.py:36-86 | for every certificate name and host name the matcher agrees with the label rule of section 6.4.3 of RFC 6125 as coded, the wildcard not expanding exactly when one of the names starts with `xn--`; the error is raised exactly for two wildcards in the left-most label; an empty name never matches |

## Left out

- Images.Parse: models strings without line breaks only, where `.` matches every character and `$` only the end; whether `urlparse` finds a scheme is a parameter.
- TemplateText.PredefinedApp.FillTemplateText: assumes fresh uids (windows of uids identify uid and offset, and none occurs in the final text); uids, generated defaults and the text of a loaded default are parameters.
- TemplateMatch.Matcher.IsTemplateFor: covers the worklist for documents without `appVariables`; the entry part, the loop for `appVariables` and `%USER_DOMAIN%` (which never matches the escaped text in this loop) are not modelled, nor are applications without any field, whose generated expression is degenerate, nor entities in mapping keys.
- TemplateFill.FillTree: takes the coerced value of a whole-field entity as given, and does not model the `appVariables` entry that `_fill_template` adds.
- Plans.Spec.UpdateKubes: covers expanded plans, in which every item has an amount; an absent amount would be copied as an absent value.
- Plans.Spec.UpdateVolumes: the same restriction as for kubes.
- Plans.ExpandAndApplyKubes: models one pod and the totals, not the price formula, the public IP flag, the kube type or the cached info.
- Listener.Process.Listen: the time between reconnections and logging are left out; the verdict of `filter_event` is a property of the event.
- NodeCounter.ApiServer.Increment: assumes that a stale write always answers 409 and any other answer means that the write was applied; a lock removed by `clean_locks` while it is held is not modelled.
- NetworkPolicies.PodOutboundVerdict: addresses are numbers and networks ranges; the service tier, the Kubernetes policies and the errors for a missing tunnel address are not modelled.
- PortPolicies.PortTable.SetPort: concurrent calls are not modelled; a call is atomic apart from its faults.
- ExclusiveTask.AtMostOneInTime: assumes an expiring lock given to one taker, a token-checked release, and no `clean_locks` during the run.
- EventStream.NothingLostUnlessEvicted: sends on a channel do not overlap; a client without a last id, which gets no replay, and the formatting of messages are not modelled.
- BackupMerge.Backups.DoMerge: the directory listing and the time read from a name are parameters, so that sorted names are in chronological order is an assumption of the optimality result; no file path is a directory of another within a group; failures of the file system are not modelled.
- IpPool.GetNetworkIps: the AWS branch, an unknown network and addresses outside the network are not modelled.
- FsLimit.FsLimit: names and lines hold no line break; the file locks of other programs and the `xfs_quota` commands are not modelled.
- FsLimit.KeepsIdIffListed: the existing paths and what `int` accepts as a directory name are parameters.
- CertNames.DnsnameMatch: case folding is that of ASCII; the wildcard limit is the default of one; certificate parsing is not modelled.
- HTTP views, SSH, Celery and Fabric plumbing, storage and DNS plugins, YAML, JSON and OpenSSL parsing: input and output over libraries.
- `k8s2etcd.py`, usage statistics, licensing, validation schemas, pod collection, the front end: not part of this model.
- Pricing flags, dictionary merging, unit conversions and status strings: they would only add easy members.
