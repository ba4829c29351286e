# Verified model of the Inari core

This project models the parts of the system whose correctness depends on the order of steps or on the exact meaning
of a format, and proves what they promise.

* **Router Supervisor** (`Policies`, `Hosts`, `Storage`, `Tls`, `RouterConfigs`, `History`, `Supervisor`, `Oversized`).
  One actor owns the signed policy on disk, the policy in memory, a supervised Zenoh process, its credentials and a
  published status. It is a class whose methods take the steps of the source, with every outcome of the disk, the
  process, the credential files and the clock left open. Each step appends to a history every change that it makes to
  directory, memory, child or status, one at a time. A process can die at every point of every step, also of the
  activation at its start, with or without a loss of power, and a start can fail and be tried again. `Live` runs any
  sequence of starts, ticks, submitted policies, shutdowns and crashes.
* **Access control compiler** (`KeyExpressions`, `Acl`, `AclMeaning`, `AclTheorems`). A validated policy becomes flat
  lists of rules, subjects and bindings that refer to each other by id. An evaluator gives the lists a meaning, and
  that meaning is proved to be the policy.
* **ZPL label contract** (`Utf8`, `ZplEscape`, `ZplFields`, `ZplTokens`, `ZplReports`, `ZplLexer`, `ZplMachine`,
  `ZplTheorems`, `ZplGrammar`, `ZplTemplate`, `ZplPrinter`, `ZplSplit`, `ZplContent`). The escaper and the decoder, the
  geometry of fields, the scanner and its state machine. `ZplSplit` holds the loop over an offset and proves that it
  computes the labels that a lexer and a machine over tokens define. `ZplReports` proves what follows from a few laws of
  any such lexer and machine, and `ZplMachine` proves those laws of ZPL.
* **Smaller parts**: framing of fingerprints and of TLS digests (`Framing`, `Fingerprint`), the provenance of
  configuration values (`Provenance`, `ProvenanceTheorems`), the retirement of verification keys (`KeyRetirement`), and
  the order of Windows package versions (`Msix`, `Candidates`).

Check everything with `dafny verify dfyconfig.toml`.

## What the proofs found

* `docs/router_policy.md` promises an acknowledgement with the exact generation, digest and expiry of the policy. The
  code does not always keep that. When a refresh has written the new generation and the operating system then cannot be
  asked about the child, `refresh` returns an error before it publishes. A repetition of the same policy is then
  acknowledged with the facts of the replaced policy. `RouterSupervisor.Apply` states exactly when the facts are the
  applied ones, and `RouterSupervisor.Refresh` shows that such a refresh does leave a lag. Enforcement itself is never
  wrong.
* A tick that cannot inspect the child leaves the loop of `run` with `?`. The child is killed with the actor, but nobody
  withdraws the status, so a handle reports `ready` without a child until the published expiry or the end of the
  process. `TakeTurn` states that an actor that ends leaves a ready status exactly then, and `ReportIsTrue` that no
  other point of a history has a ready status without a child.
* The same document promises that a policy is not acknowledged after its expiry. The code does not always keep that
  either. `RouterSupervisor.Apply` states when the policy was last found current, and that the acknowledgement is in
  time exactly when the rest of the step takes less than the life that the policy had left then. After a refresh that
  kept its child, that moment is the acknowledgement itself. After an activation it lies after the probe. A repetition
  looks at the policy only before it asks about the child and its credentials. Of that only the read of credentials is
  bounded, by 500 ms, so every policy can expire on the way (`RouterSupervisor.RepeatSlowly`).
* `PolicyStore::persist` does not check the limit of 2 MiB that `PolicyStore::load` enforces, so a stored policy is read
  back exactly when it is within the limit (`RouterSupervisor.Load`, `RouterSupervisor.Boot`). A well-formed policy over
  the limit exists (`OversizedPolicyExists`); the management server keeps it out by its own limit on request bodies.
* After a failed directory sync the new policy can be visible without being durable. The published generation is at most
  the visible one and the visible one at most that in memory; the durable generation never goes back, and whatever was
  acknowledged or spawned is durable.
* `Provenance::all` and `Provenance::origin_of` agree exactly on trees whose root is a table, whose names on the way to
  a setting have no dot, and where no setting lies deeper than the root in a table with the empty name
  (`SortedListAgrees`; `DottedNameDisagrees` and `EmptyNameDisagrees` are the failing cases).
* `toMsixVersion` orders exactly the plain forms of versions. `alpha` and `alpha.0` get one package version, and longer
  tails are ignored. It tests the channel with the `in` operator, so names that every JavaScript object inherits, such
  as `constructor`, pass the test and give text that is no version (`MappedIsPackage`, `InheritedNameIsGarbled`).
* The migration can retire the current transport key of an agent: it stays active exactly when no later transport key
  was registered for that agent (`CurrentKeyStaysActive`, with the failing case in `CurrentKeyCanRetire`).

## Conventions

* The wall clock and the monotonic clock never go back. Time is counted in nanoseconds.
* `Host` counts what the machine does: operations that fail, limits that pass, sightings of the child and answers to
  probes. The counters change only with the outcome of an operation, so a contract can name a cause. "Trouble" in the
  table means that a failure or a passed limit was counted, or that the policy was not current throughout the step.
* SHA-256 is a constructor, so that equal digests mean equal input. A signature check, Zenoh's configuration parser,
  canonical JSON, Unicode categories, the decimal ratio of `^BY`, and the parsers of certificates and of semantic
  versions are function values, about which nothing or only the stated law is known.
* All `LabelContractError` cases are one error, since callers do not tell them apart.
* Generic results take function values or records of them. Their laws are predicates that are proved of the concrete
  functions (`Lawful` of `Zpl`, `AuthorityDecides` of `ChecksOf`).

## Model

| member | source | states |
|---|---|---|
| `Policies.Validate` | crates/inari-router/src/policy.rs:124-167 | The validation loop accepts exactly the well-formed policies: limits, the window of five minutes, literal names, distinct peers and Agents, and every Agent in its own namespace. |
| `Policies.ValidateSubjects` | crates/inari-router/src/policy.rs:152-165 | The inserting loops accept exactly distinct literal peers that are no Agent names and distinct Agents under their own namespace. |
| `Policies.Verify` | crates/inari-router/src/policy.rs:62-73 | A signed policy verifies exactly when the key is strong and accepts the signature, the fleet is the configured one and the policy is well formed; otherwise the reason is returned. |
| `Policies.Advances` | crates/inari-router/src/policy.rs:110-120 | A policy advances exactly when its generation is higher, repeats exactly when it is the same policy, and is an error otherwise. |
| `KeyExpressions.IncludesBelow` | crates/inari-router/src/acl.rs:105-105 | A literal head with the wildcard for any number of segments includes exactly the keys at or below that head. |
| `KeyExpressions.IncludesTransitive` | crates/inari-router/src/acl.rs:105-145 | Inclusion of key expressions is transitive, so a wild request inside a rule reaches nothing outside it. |
| `Acl.CompileAgent` | crates/inari-router/src/acl.rs:134-147 | The inner loop pushes one allow rule and one id for every definition of the Agent, in order. |
| `Acl.CompileLists` | crates/inari-router/src/acl.rs:89-152 | The nested loops produce exactly the three lists that the theorems are about. |
| `AclMeaning.RuleIdInjective` | crates/inari-router/src/acl.rs:136-136 | A rule id determines the Agent name and the suffix it was made of. |
| `AclMeaning.MatchedComesFromPolicy` | crates/inari-router/src/acl.rs:89-152 | A rule that applies through the lists is the rule of trusted peers or one of the Agent's own six, for the name on the certificate. |
| `AclMeaning.ListsAllow` | crates/inari-router/src/acl.rs:89-152 | The lists allow a request exactly when its link uses TLS and a rule of the policy itself matches it. |
| `AclMeaning.AgentRuleMeaning` | crates/inari-router/src/acl.rs:116-147 | A generated Agent rule matches a request exactly when its message, flow and key are those of its definition below the Agent's namespace. |
| `AclTheorems.AclMeansPolicy` | crates/inari-router/src/acl.rs:89-152 | For every well-formed policy and every request, evaluating the lists allows it exactly when the link uses TLS and the policy grants it to the certificate's name. |
| `AclTheorems.PeersAreNotAgents` | crates/inari-router/src/policy.rs:152-165 | No name is both a trusted peer and an Agent. |
| `AclTheorems.AgentIsolation` | crates/inari-router/src/policy.rs:158-165 | No key is granted to two distinct Agents, whatever the messages and flows. |
| `AclTheorems.WildRequestStaysInside` | crates/inari-router/src/acl.rs:113-147 | A request for a wild expression is granted only if every key it covers is granted. |
| `AclTheorems.WildIsolation` | crates/inari-router/src/acl.rs:113-147 | No key is reachable by two distinct Agents even through wild requests. |
| `AclTheorems.RuleIdsAreUnique` | crates/inari-router/src/acl.rs:134-147 | Rules with one id are one rule. |
| `AclTheorems.SubjectIdsAreUnique` | crates/inari-router/src/acl.rs:148-149 | Subjects with one id are one subject. |
| `AclTheorems.SameAuthorityIffSameLists` | crates/inari-router/src/policy.rs:92-100 | For well-formed policies of one fleet, `has_same_authority` holds exactly when the generated lists are equal. |
| `Framing.FrameParsesUniquely` | packages/print-contracts/inari_print_contracts/fingerprint.py:120-123 | A frame can be read off the front of any bytes in only one way. |
| `Framing.FramesParseUniquely` | packages/print-contracts/inari_print_contracts/fingerprint.py:63-75 | Framing a fixed number of fields is injective, and no framing is a proper prefix of another. |
| `Framing.BigEndianInjective` | packages/print-contracts/inari_print_contracts/fingerprint.py:64-64 | Big-endian numbers of one width are equal only for equal numbers. |
| `Tls.HashFiles` | crates/inari-router/src/tls.rs:35-44 | The hashing loop rejects an empty or oversized file and otherwise hashes exactly the framed files in order. |
| `Tls.IntersectValidity` | crates/inari-router/src/tls.rs:47-67 | The loop over the chain yields the intersection of all validity periods, and fails for an empty chain. |
| `Tls.LoadMaterial` | crates/inari-router/src/tls.rs:31-78 | Loaded material is current at the reading, its period is within that of every certificate, and its digest is that of its files. |
| `Tls.DigestDeterminesFiles` | crates/inari-router/src/tls.rs:35-44 | Equal digests mean equal root, certificate and key files. |
| `Tls.LoadDataTls` | crates/inari-router/src/tls.rs:94-113 | Both credential sets are current and share one trust anchor, or loading fails. |
| `Tls.DataTls.ExpiresAt` | crates/inari-router/src/tls.rs:124-128 | The earlier end of the two chains. |
| `Storage.AtomicFile.Begin` | crates/inari-router/src/store.rs:65-66 | Starting a write changes nothing that a reader sees. |
| `Storage.AtomicFile.Step` | crates/inari-router/src/store.rs:65-75 | At every system call a reader sees the old or the new value whole; success means visible and durable, and a failure, which is always one of the disk, leaves open which is in place. |
| `Storage.AtomicFile.Crash` | crates/inari-router/src/store.rs:65-75 | A crash leaves the visible value, and a loss of power the durable one, never a torn file. |
| `RouterConfigs.CheckConfig` | crates/inari-router/src/acl.rs:23-49 | The check of identity and endpoints in turn accepts exactly a Router id of 32 hexadecimal digits that are not all zero and TLS endpoints without overrides. |
| `RouterConfigs.RenderedIsConfined` | crates/inari-router/src/acl.rs:51-77 | In every rendered document the lists allow exactly what the policy grants, and the Router listens and connects only by TLS. |
| `RouterConfigs.SameAuthorityRendersAlike` | crates/inari-router/src/policy.rs:92-100 | Policies of the same authority render to the same document, so a refresh enforces what an activation would. |
| `RouterConfigs.DocumentDeterminesAuthority` | crates/inari-router/src/acl.rs:51-77 | For policies of one fleet, one document means one authority. |
| `History.ChecksOf` | crates/inari-router/src/supervisor.rs:87-134 | The verification and rendering of the source satisfy what the protocol relies on. |
| `History.Admit` | crates/inari-router/src/supervisor.rs:94-100 | A setup is refused exactly for an invalid configuration, a weak key or a fleet name that is not literal, with the error of the first of these. |
| `History.NoRollback` | crates/inari-router/src/supervisor.rs:166-322 | Along every history with crashes, policies that were spawned or acknowledged never go back in generation, and equal generations have equal digests. |
| `History.StoredNeverGoesBack` | crates/inari-router/src/supervisor.rs:192-268 | What is durable never goes back in generation, what is visible goes back only with a loss of power, and published is at most visible is at most memory. |
| `History.StartsAreCounted` | crates/inari-router/src/supervisor.rs:277-285 | Every start of a process is in the history, once. |
| `History.ChildWasStarted` | crates/inari-router/src/supervisor.rs:277-285 | Every child in the history has its start there, for a policy that its document enforces, and has lived without a gap since. |
| `History.ExclusiveAuthority` | crates/inari-router/src/supervisor.rs:192-263 | While one child runs, the authority in memory does not change. |
| `History.ReadyMeansEnforced` | crates/inari-router/src/supervisor.rs:252-321 | At every point, inside a step or between steps, a ready status has a child exactly when the actor was not abandoned, and the lists of that child allow exactly what the published policy grants. |
| `History.ReportIsTrue` | crates/inari-router/src/supervisor.rs:59-63 | Whoever reads `ready` at any point reads of an unexpired policy that a child enforces, unless the actor was abandoned, and then no child is left. |
| `History.PublishedIsNoNewer` | crates/inari-router/src/supervisor.rs:192-268 | A policy newer than the one in memory is never published. |
| `History.SameAuthoritySameGrants` | crates/inari-router/src/policy.rs:92-100 | Policies of the same authority grant the same requests. |
| `History.AuthorityIsRecent` | crates/inari-router/src/policy.rs:131-140 | A policy that has not expired was issued less than five minutes before. |
| `Supervisor.RouterSupervisor.constructor` | crates/inari-router/src/supervisor.rs:87-134 | A directory without a history, and no policy, child or readiness. |
| `Supervisor.RouterSupervisor.Record` | crates/inari-router/src/supervisor.rs:166-322 | A change is recorded only as the next point of the history: one of directory, memory, child and status has changed, and a child appears only with its start. |
| `Supervisor.RouterSupervisor.NotReady` | crates/inari-router/src/supervisor.rs:443-448 | Only readiness is withdrawn. |
| `Supervisor.RouterSupervisor.Stop` | crates/inari-router/src/supervisor.rs:450-478 | The child and its credentials are gone even when stopping reports an error, and an error means that the host failed. |
| `Supervisor.RouterSupervisor.Retire` | crates/inari-router/src/supervisor.rs:382-383 | Readiness and child are gone, and the state is valid again. |
| `Supervisor.RouterSupervisor.Bury` | crates/inari-router/src/supervisor.rs:384-389 | A child that has exited is forgotten with its credentials and its readiness, in one point. |
| `Supervisor.RouterSupervisor.Abandon` | crates/inari-router/src/supervisor.rs:154-154 | An actor that leaves its loop by an error takes its child with it and leaves its status as it is. |
| `Supervisor.RouterSupervisor.StepWrite` | crates/inari-router/src/store.rs:65-75 | Every system call of a write is a point of the history at which all invariants hold; the write comes nearer to its end, and fails exactly when the disk does. |
| `Supervisor.RouterSupervisor.Persist` | crates/inari-router/src/store.rs:61-75 | Success means that the disk holds the policy in memory; it fails exactly when the disk does, and every invariant still holds. |
| `Supervisor.RouterSupervisor.WriteRouterJson` | crates/inari-router/src/supervisor.rs:271-275 | Success means that the file holds the document, and the write fails exactly when the disk does. |
| `Supervisor.RouterSupervisor.LoadTls` | crates/inari-router/src/tls.rs:94-113 | Loaded credentials began by now and end after the start of the read; an error means files that cannot be read or used. |
| `Supervisor.RouterSupervisor.WaitReady` | crates/inari-router/src/supervisor.rs:324-370 | Success means a probe that began before the deadline with current credentials and was answered; an error means a failure or a passed deadline, and no answer is ignored unless a failure came with it; the loop ends. |
| `Supervisor.RouterSupervisor.Publish` | crates/inari-router/src/supervisor.rs:264-268 | The status names the policy that the disk holds. |
| `Supervisor.RouterSupervisor.Adopt` | crates/inari-router/src/supervisor.rs:277-287 | A started process becomes the child of the policy that memory and disk hold, with its document and credentials, in one point that records the start. |
| `Supervisor.RouterSupervisor.Deadline` | crates/inari-router/src/supervisor.rs:288-301 | There is no deadline only if the authority has ended; otherwise it gives the time for a start or as much as is left to the authority. |
| `Supervisor.RouterSupervisor.Spawn` | crates/inari-router/src/supervisor.rs:276-287 | A child is started exactly when the system starts it, only for the policy that memory and disk hold, on its own document, and its start is a point of the history. |
| `Supervisor.RouterSupervisor.Declare` | crates/inari-router/src/supervisor.rs:303-315 | A child that has answered is declared ready exactly if policy and credentials are still current; otherwise its authority has ended. |
| `Supervisor.RouterSupervisor.BecomeReady` | crates/inari-router/src/supervisor.rs:288-321 | Success means that a probe was answered and that policy and credentials were current after it; after a failure the child is gone or its authority has ended; only trouble makes it fail, and a limit counts as passed only after the time for a start or after as much as was left to the authority. |
| `Supervisor.RouterSupervisor.Enter` | crates/inari-router/src/supervisor.rs:258-258 | A policy that is no older enters memory as one point of the history, while no child runs. |
| `Supervisor.RouterSupervisor.Install` | crates/inari-router/src/supervisor.rs:254-268 | No child is left when the new policy enters memory, and memory is raised before the disk; only a failure of the host stops it. |
| `Supervisor.RouterSupervisor.Prepare` | crates/inari-router/src/supervisor.rs:269-275 | The file that the child will read holds the document and the credentials of the moment, or nothing is started, and that exactly when the host fails. |
| `Supervisor.RouterSupervisor.Ignite` | crates/inari-router/src/supervisor.rs:277-321 | A child that runs afterwards is new and has the prepared credentials; success means that it answered a probe before policy and credentials were found current, and only trouble makes it fail. |
| `Supervisor.RouterSupervisor.Launch` | crates/inari-router/src/supervisor.rs:269-321 | A child that runs afterwards is new and outlives the start of the step; success means an answered probe and then a current policy, and only trouble makes it fail. |
| `Supervisor.RouterSupervisor.Activate` | crates/inari-router/src/supervisor.rs:252-322 | Success means that disk, memory, status and child hold the policy, that the child answered a probe, and that policy and credentials were current after it; a policy that does not render changes nothing, and one that renders fails only through trouble; a failure leaves no ready status and no unexplained child. |
| `Supervisor.RouterSupervisor.Observe` | crates/inari-router/src/supervisor.rs:372-441 | A child is kept, with its status, exactly when nothing was seen that ends it: a policy that is not current, an exit, credentials that have ended, or, where a check is due, a read that failed or took 500 ms, or other credentials in the files; a kept child was seen running, and an exited one is forgotten; a kept or new child's policy and chains expire after the start of the step, and a ready one's policy was current during it; without trouble a due observation leaves a ready child; no child is started before a check is due; an error means that the host failed and ends the child, except that one nobody could ask about is left alone with its status. |
| `Supervisor.RouterSupervisor.Examine` | crates/inari-router/src/supervisor.rs:384-428 | The same for a child whose policy is current. |
| `Supervisor.RouterSupervisor.Attend` | crates/inari-router/src/supervisor.rs:390-428 | The same for a child that runs: it goes on exactly when its credentials are unchanged, it ends only for a reason, and without trouble a ready child is left. |
| `Supervisor.RouterSupervisor.Reactivate` | crates/inari-router/src/supervisor.rs:420-426 | A child that runs afterwards is new, outlives the start of the step and has its policy published; without trouble it is ready. |
| `Supervisor.RouterSupervisor.Revive` | crates/inari-router/src/supervisor.rs:429-439 | Without a child, a policy is tried again when it is time, which without trouble makes it ready, and attempts are at least the interval apart. |
| `Supervisor.RouterSupervisor.CheckCredentials` | crates/inari-router/src/supervisor.rs:390-428 | Credentials are unusable exactly when they were found to have ended, or when a due read failed or took 500 ms; a due check keeps them only if they match the files; usable ones expire after the start of the step. |
| `Supervisor.RouterSupervisor.RefreshTick` | crates/inari-router/src/supervisor.rs:208-218 | However slow the storage is, a tick ends a child whose replaced policy or credentials have expired when the tick begins, and only one whose policy or credentials it finds not current. |
| `Supervisor.RouterSupervisor.Watch` | crates/inari-router/src/supervisor.rs:207-218 | A tick during the write, which keeps a failure to stop the child and the time at which it was found to have lapsed. |
| `Supervisor.RouterSupervisor.WriteAhead` | crates/inari-router/src/supervisor.rs:201-201 | Any number of system calls of the write can come before the first tick. |
| `Supervisor.RouterSupervisor.RefreshWrite` | crates/inari-router/src/supervisor.rs:201-221 | However ticks and system calls interleave, also when calls precede the first tick, the write ends, and the child is kept unchanged or gone; a kept child's policy and credentials had not ended when the last tick began, and those of a child that is gone were found not current during the write; without a failure of the host the write succeeds. |
| `Supervisor.RouterSupervisor.Await` | crates/inari-router/src/supervisor.rs:205-221 | The same for the rest of the write after its first tick. |
| `Supervisor.RouterSupervisor.Raise` | crates/inari-router/src/supervisor.rs:197-201 | The generation in memory is raised before the write begins, and a running child still enforces it. |
| `Supervisor.RouterSupervisor.Replace` | crates/inari-router/src/supervisor.rs:193-232 | The new generation reaches memory and disk, or the child ends and the host has failed; a kept child had not lapsed at the last tick, and a child that ended without an error had. |
| `Supervisor.RouterSupervisor.Conclude` | crates/inari-router/src/supervisor.rs:241-249 | The new policy is published exactly if it is current now; otherwise the status stays as it is. |
| `Supervisor.RouterSupervisor.Finish` | crates/inari-router/src/supervisor.rs:234-249 | The policy is published for a ready child of a policy that has not ended, or activated otherwise; success means that it was found current, and only trouble makes it fail. |
| `Supervisor.RouterSupervisor.Settle` | crates/inari-router/src/supervisor.rs:233-249 | After the write, success publishes a current policy for the kept child, which was seen running, or for a new one; a kept child outlives the end of the write, and a new one is started only because the old one had to end or the replaced policy had lapsed; only trouble makes it fail. |
| `Supervisor.RouterSupervisor.Refresh` | crates/inari-router/src/supervisor.rs:192-250 | Whatever the outcome, a kept child had not lapsed when the last tick of the write began; after success its policy and credentials had not ended when the new generation was safe, and the new policy is current and published; another child is started only for a stated reason, and only trouble makes it fail; a child that could not be inspected goes on under a status that lags behind a raised generation. |
| `Supervisor.RouterSupervisor.Acknowledge` | crates/inari-router/src/supervisor.rs:166-190 | An acknowledgement is recorded only for the policy that disk, memory and child hold. |
| `Supervisor.RouterSupervisor.RefreshOrActivate` | crates/inari-router/src/supervisor.rs:179-188 | The same after the observation. |
| `Supervisor.RouterSupervisor.Update` | crates/inari-router/src/supervisor.rs:178-188 | By refresh or activation, success means that the policy is in memory, ready, published and current; only trouble makes it fail; a child that was kept was seen running before the write and after it, and a ready child of the same authority is replaced only for a stated reason. |
| `Supervisor.RouterSupervisor.Enforce` | crates/inari-router/src/supervisor.rs:178-189 | The same, acknowledged. |
| `Supervisor.RouterSupervisor.Repeat` | crates/inari-router/src/supervisor.rs:169-177 | A repetition is acknowledged for the enforced policy, which was current at the observation, or the observation has ended the child and the update goes on. |
| `Supervisor.RouterSupervisor.RepeatSlowly` | crates/inari-router/src/supervisor.rs:169-177 | A run of a repetition with any delay at the inspection: it acknowledges, and in time exactly when the delay is shorter than the life that the policy had left. |
| `Supervisor.RouterSupervisor.RepeatOrEnforce` | crates/inari-router/src/supervisor.rs:169-189 | A repetition is acknowledged, and without a new child only after the child was seen; a new child has a stated reason, the facts are exact unless the Supervisor was lagging and kept its child, and only trouble makes it fail. |
| `Supervisor.RouterSupervisor.Screen` | crates/inari-router/src/supervisor.rs:168-170 | A policy passes exactly if it is current and no older than the one in memory, and repeats exactly if it is that one. |
| `Supervisor.RouterSupervisor.Proceed` | crates/inari-router/src/supervisor.rs:169-189 | What `Apply` promises, for a policy that passed. |
| `Supervisor.RouterSupervisor.Apply` | crates/inari-router/src/supervisor.rs:166-190 | An acknowledgement means enforcement by all three routes, of a policy that was current during the step and, after a refresh that kept its child, is current now; it is in time exactly when the rest of the step took less than the life that was left; its facts are exact except for a lagging repetition; a ready child of the same authority is replaced only for a stated reason, and one that is kept was seen running; a policy that verifies, is no older and renders is acknowledged unless there is trouble; a rejected, expired or older policy changes nothing. |
| `Supervisor.RouterSupervisor.Report` | crates/inari-router/src/supervisor.rs:30-63 | The status with its readiness ended by the published expiry, at any moment and with no condition on the actor. |
| `Supervisor.RouterSupervisor.Load` | crates/inari-router/src/store.rs:41-59 | A stored policy is read back exactly when the disk reads, the policy verifies and its file is within the limit. |
| `Supervisor.RouterSupervisor.Initialize` | crates/inari-router/src/supervisor.rs:101-134 | Memory and status start from the stored policy, without readiness or a child. |
| `Supervisor.RouterSupervisor.Start` | crates/inari-router/src/supervisor.rs:136-148 | Only a stored policy that outlives the start is activated, which without trouble makes it ready, and a failure is survived. |
| `Supervisor.RouterSupervisor.Boot` | crates/inari-router/src/supervisor.rs:87-134 | A Supervisor starts exactly when its setup is usable, the directory reads and the stored file is within the limit; a start that fails leaves directory and history as they are. |
| `Supervisor.RouterSupervisor.Die` | crates/inari-router/src/supervisor.rs:136-164 | A process that dies at any recorded point leaves the directory of that point, or after a loss of power what was durable then, and the history up to that point. |
| `Supervisor.RouterSupervisor.LosePower` | crates/inari-router/src/store.rs:65-75 | A loss of power while no process runs leaves what was durable. |
| `Supervisor.TakeTurn` | crates/inari-router/src/supervisor.rs:136-164 | Every turn that does not end the actor keeps the invariant; a reply of success is the last event of the history; an actor that ends leaves no child, and leaves a ready status exactly when a tick failed to inspect the child of a ready actor; only a failure of the host ends an actor that was not told to stop, and only trouble keeps a policy that verifies, is no older and renders from being acknowledged. |
| `Supervisor.Wake` | crates/inari-router/src/supervisor.rs:87-134 | A start that fails can be tried again, and power can be lost between starts. |
| `Supervisor.Rise` | crates/inari-router/src/supervisor.rs:136-148 | A process can die at every point of the activation at its start, and the directory and the history stay sound. |
| `Supervisor.Survive` | crates/inari-router/src/supervisor.rs:136-164 | A step that is cut short at any point acknowledges nothing, and the history before it stays. |
| `Supervisor.Live` | crates/inari-router/src/supervisor.rs:136-164 | Every life, with starts that fail and deaths at any point of any step or start, has a legal history that leaves out no point and counts every process started: at every point published is at most visible is at most memory, the durable generation never goes back, and acknowledged policies are in order. |
| `Supervisor.LiveOn` | crates/inari-router/src/supervisor.rs:87-164 | From a directory with any history, a life only adds to it, ends in a sound state that the history ends with, and has a place in it for every acknowledgement. |
| `Supervisor.LiveWith` | crates/inari-router/src/supervisor.rs:87-164 | The same for the verification and rendering of the source. |
| `Supervisor.AcknowledgementsInOrder` | crates/inari-router/src/supervisor.rs:166-190 | Policies acknowledged to clients never go back in generation. |
| `Oversized.OversizedPolicyExists` | crates/inari-router/src/store.rs:41-63 | Every fleet has a well-formed policy whose stored file is over the limit of the reader. |
| `Utf8.DecodeOfEncode` | packages/print-contracts/inari_print_contracts/zpl.py:205-208 | Every text is decoded from its own encoding. |
| `Utf8.EncodeOfDecode` | packages/print-contracts/inari_print_contracts/zpl.py:205-208 | Strict decoding accepts only the encoding of the text it yields. |
| `ZplEscape.BytesRefineCharacters` | packages/print-contracts/inari_print_contracts/zpl.py:81-88 | Escaping bytes is escaping characters: no byte of a longer character is ever taken for a special one. |
| `ZplEscape.EscapeFieldIsText` | packages/print-contracts/inari_print_contracts/zpl.py:74-88 | The escaper fails exactly for text with a control character, and its bytes always decode. |
| `ZplEscape.GatherBytes` | packages/print-contracts/inari_print_contracts/zpl.py:96-120 | The first loop fails exactly where no text is escaped so, and gathers the bytes of the unescaped text. |
| `ZplEscape.CheckDoubled` | packages/print-contracts/inari_print_contracts/zpl.py:125-133 | The second loop accepts exactly text in which every backslash is doubled. |
| `ZplEscape.DecodeField` | packages/print-contracts/inari_print_contracts/zpl.py:96-135 | The decoder computes the text whose escape its input is, or fails. |
| `ZplEscape.EscapeIsBijection` | packages/print-contracts/inari_print_contracts/zpl.py:74-135 | In both modes a source is the escape of a value exactly when it decodes to that value. |
| `ZplEscape.EscapedIsPlain` | packages/print-contracts/inari_print_contracts/zpl.py:74-88 | Escaped text has no command prefix. |
| `ZplFields.ValidMeansFits` | packages/print-contracts/inari_print_contracts/zpl.py:155-193 | The check passes exactly when the source escapes a text within the limits, in the symbol, whose box lies in the printable area for either kind of origin. |
| `ZplFields.CodewordsFillSymbol` | packages/print-contracts/inari_print_contracts/zpl.py:46-71 | Every capacity of the table, with the error correction of ISO/IEC 16022, fills the data modules of its symbol. |
| `ZplLexer.LexText` | packages/print-contracts/inari_print_contracts/zpl.py:216-243 | Reading a token loses nothing of the text. |
| `ZplLexer.LexExtend` | packages/print-contracts/inari_print_contracts/zpl.py:216-243 | A token does not depend on what follows, beyond the next command prefix. |
| `ZplLexer.LexTruncate` | packages/print-contracts/inari_print_contracts/zpl.py:216-243 | A token does not depend on text after it that is cut off. |
| `ZplMachine.AdvanceAhead` | packages/print-contracts/inari_print_contracts/zpl.py:293-307 | Data that follows never stops a command that was accepted without it. |
| `ZplMachine.ZplIsLawful` | packages/print-contracts/inari_print_contracts/zpl.py:216-312 | Lexer and machine of ZPL keep the laws that the results about reports rest on. |
| `ZplReports.TokensGlue` | packages/print-contracts/inari_print_contracts/zpl.py:216-243 | Texts that lex apart lex together to the same tokens. |
| `ZplReports.TokensSplit` | packages/print-contracts/inari_print_contracts/zpl.py:216-243 | The tokens of a report split where its text splits. |
| `ZplReports.RunGlue` | packages/print-contracts/inari_print_contracts/zpl.py:244-259 | After a label nothing of its state is left. |
| `ZplReports.FirstLabel` | packages/print-contracts/inari_print_contracts/zpl.py:216-315 | An accepted sequence is blank, or it is blanks, one label that is accepted alone, and an accepted sequence. |
| `ZplTheorems.LabelStandsAlone` | packages/print-contracts/inari_print_contracts/zpl.py:196-315 | Every label of an accepted report is a report with exactly that label. |
| `ZplTheorems.ReportsCompose` | packages/print-contracts/inari_print_contracts/zpl.py:196-315 | The labels of a concatenation are the concatenated labels. |
| `ZplTheorems.ReportIsPartitioned` | packages/print-contracts/inari_print_contracts/zpl.py:216-315 | A report is its labels in order with only blanks between, before and after them. |
| `ZplTheorems.LabelShape` | packages/print-contracts/inari_print_contracts/zpl.py:244-259 | A label begins with `^XA` and ends at its own `^XZ`, and holds no other of either. |
| `ZplGrammar.FieldsFit` | packages/print-contracts/inari_print_contracts/zpl.py:155-193 | Every label has between one field and the limit, and some text fits in every field. |
| `ZplGrammar.ExecuteShape` | packages/print-contracts/inari_print_contracts/zpl.py:260-307 | What each command does to origin, format and escape mode of the present field. |
| `ZplGrammar.LabelFollowsGrammar` | packages/print-contracts/inari_print_contracts/zpl.py:227-312 | Every label has one leading `^CI28`, and for each field one origin, one format, and `^FH_` immediately before its data. |
| `ZplTemplate.LexData` | packages/print-contracts/inari_print_contracts/zpl.py:227-237 | The search for `^FS` ends exactly at the end of data without a prefix. |
| `ZplTemplate.ValueStaysInField` | packages/print-contracts/inari_print_contracts/zpl.py:196-315 | Another source in one field is accepted exactly when that field allows it, and then every other field and label is unchanged. |
| `ZplTemplate.EscapedValueStaysInField` | packages/print-contracts/inari_print_contracts/zpl.py:74-88 | Any printable value, once escaped, stays inside its field, and is accepted exactly when it fits that field. |
| `ZplPrinter.IntegerOfNat` | packages/print-contracts/inari_print_contracts/zpl.py:138-141 | A numeral is read as its number exactly within its bounds and up to four digits. |
| `ZplPrinter.FormatIsSet` | packages/print-contracts/inari_print_contracts/zpl.py:318-357 | A format printed from height, width, module, columns and rows is read back as exactly those values. |
| `ZplPrinter.DesignRoundTrip` | packages/print-contracts/inari_print_contracts/zpl.py:260-357 | Every design of fitting fields, printed with its coordinates and formats, is accepted as one label with exactly those fields and that text. |
| `ZplPrinter.LabelIsDesign` | packages/print-contracts/inari_print_contracts/zpl.py:260-357 | Every accepted label is such a design, so the accepted labels are exactly the designs. |
| `ZplSplit.CheckField` | packages/print-contracts/inari_print_contracts/zpl.py:155-193 | The check with its local variables passes exactly where the specification does. |
| `ZplSplit.Interpret` | packages/print-contracts/inari_print_contracts/zpl.py:260-311 | The branches on the splitter's variables have the effect of the machine. |
| `ZplSplit.ReadData` | packages/print-contracts/inari_print_contracts/zpl.py:227-237 | The search for the separator finds exactly the data token. |
| `ZplSplit.PlaceData` | packages/print-contracts/inari_print_contracts/zpl.py:229-235 | Placing a field on the variables is the step of the machine, or both fail. |
| `ZplSplit.TakeData` | packages/print-contracts/inari_print_contracts/zpl.py:227-237 | After field data what is left of the text still decides the answer, or the report is rejected. |
| `ZplSplit.ReadCommand` | packages/print-contracts/inari_print_contracts/zpl.py:238-243 | Cutting at the next prefix and stripping finds exactly the command token and the blanks after it. |
| `ZplSplit.Open` | packages/print-contracts/inari_print_contracts/zpl.py:244-248 | `^XA` opens a label with all variables reset, or fails with the machine. |
| `ZplSplit.Close` | packages/print-contracts/inari_print_contracts/zpl.py:251-259 | `^XZ` closes the label with its exact slice, or fails with the machine. |
| `ZplSplit.Change` | packages/print-contracts/inari_print_contracts/zpl.py:260-311 | Every other command changes the variables as the machine does, or fails with it. |
| `ZplSplit.Obey` | packages/print-contracts/inari_print_contracts/zpl.py:244-312 | Opening, closing and changing a label on the variables is the step of the machine, and the closed label is the exact slice of the text. |
| `ZplSplit.TakeCommand` | packages/print-contracts/inari_print_contracts/zpl.py:238-312 | After a command what is left of the text still decides the answer, or the report is rejected. |
| `ZplSplit.TakeBlank` | packages/print-contracts/inari_print_contracts/zpl.py:217-219 | A blank only moves the offset. |
| `ZplSplit.SplitSource` | packages/print-contracts/inari_print_contracts/zpl.py:208-315 | The loop over the offset ends, accepts exactly what the specification and the caps allow, and returns those labels in order. |
| `ZplSplit.SplitLabels` | packages/print-contracts/inari_print_contracts/zpl.py:196-315 | The splitter returns the encoded labels of the report, or fails exactly where a check or a cap fails. |
| `ZplContent.ContentIsPartitioned` | packages/print-contracts/inari_print_contracts/zpl.py:196-315 | Accepted bytes are the returned labels, byte for byte, with only blanks around them. |
| `ZplContent.SplitsIntoItself` | packages/print-contracts/inari_print_contracts/zpl.py:196-315 | Every returned label is accepted alone, within all caps, and splits into itself. |
| `ZplContent.ContentsCompose` | packages/print-contracts/inari_print_contracts/zpl.py:196-315 | Two accepted reports are accepted together, with the labels of both, exactly when size, labels and commands together are within the caps. |
| `Fingerprint.DeadlineInjective` | packages/print-contracts/inari_print_contracts/fingerprint.py:115-117 | Deadlines have equal text exactly when they are the same moment, whether or not the platform pads years. |
| `Fingerprint.RepresentationIdentifiesWork` | packages/print-contracts/inari_print_contracts/fingerprint.py:46-75 | Two accepted requests have one representation exactly when all seven normalized fields are equal. |
| `Fingerprint.NoProperPrefix` | packages/print-contracts/inari_print_contracts/fingerprint.py:63-75 | No representation is a proper prefix of another. |
| `Provenance.OriginOf` | crates/inari-server/src/config.rs:135-147 | The loop down the tree computes the lookup of the key's segments. |
| `Provenance.Collector.constructor` | crates/inari-server/src/config.rs:162-163 | The walk starts with empty buffers. |
| `Provenance.Collector.Collect` | crates/inari-server/src/config.rs:189-207 | Every level appends exactly its settings and restores the shared prefix. |
| `Provenance.SortByKey` | crates/inari-server/src/config.rs:164-164 | Sorted by key, with the same settings. |
| `Provenance.All` | crates/inari-server/src/config.rs:161-166 | The settings of the whole walk, sorted by key. |
| `Provenance.Retain` | crates/inari-server/src/config.rs:156-156 | Exactly the settings that are no defaults are kept, in their order. |
| `Provenance.Overrides` | crates/inari-server/src/config.rs:154-158 | Exactly the settings that are no defaults, sorted by key. |
| `ProvenanceTheorems.WalkNamesLeaves` | crates/inari-server/src/config.rs:189-207 | The walk lists every leaf under the key built from its path. |
| `ProvenanceTheorems.LookupFindsLeaves` | crates/inari-server/src/config.rs:135-147 | The lookup of a path succeeds exactly at the leaves. |
| `ProvenanceTheorems.KeySplits` | crates/inari-server/src/config.rs:195-202 | A key splits into the path it was built from exactly when the path is clean. |
| `ProvenanceTheorems.AgreementIsClean` | crates/inari-server/src/config.rs:135-207 | The walk has distinct keys and agrees with the lookup exactly on clean trees. |
| `ProvenanceTheorems.SortedListAgrees` | crates/inari-server/src/config.rs:135-166 | `all` is strictly sorted and lists exactly what `origin_of` finds, if and only if the tree is clean. |
| `ProvenanceTheorems.DottedNameDisagrees` | crates/inari-server/src/config.rs:135-207 | A name with a dot is listed and not found. |
| `ProvenanceTheorems.EmptyNameDisagrees` | crates/inari-server/src/config.rs:195-202 | A setting in a root table with an empty name is listed under a key that does not lead to it. |
| `KeyRetirement.FirstUpdate` | crates/inari-migration/src/m20261002_223032_retire_agent_verification_keys.rs:13-21 | Exactly the latest keys stay active, and every other is retired at the next newer registration of its agent and purpose. |
| `KeyRetirement.SurvivorsStayActive` | crates/inari-migration/src/m20261002_223032_retire_agent_verification_keys.rs:13-31 | A transport key stays active exactly when it is latest and current, a state key exactly when it is the only latest one. |
| `KeyRetirement.IndexAlwaysBuilds` | crates/inari-migration/src/m20261002_223032_retire_agent_verification_keys.rs:32-33 | At most one key of each agent and purpose stays active. |
| `KeyRetirement.CurrentKeyStaysActive` | crates/inari-migration/src/m20261002_223032_retire_agent_verification_keys.rs:22-31 | An agent keeps an active transport key exactly when its current key was registered last. |
| `KeyRetirement.CurrentKeyCanRetire` | crates/inari-migration/src/m20261002_223032_retire_agent_verification_keys.rs:13-31 | An agent with a later transport key than its current one is left without an active transport key. |
| `KeyRetirement.KeyTable.Up` | crates/inari-migration/src/m20261002_223032_retire_agent_verification_keys.rs:12-33 | The migration never fails on the index, keeps every key, and leaves exactly the survivors active. |
| `Msix.MappedIsPackage` | tooling/tegami-msix/src/version.ts:10-35 | Exactly stable versions and prereleases of the three channels with a legal sequence and parts within limits are mapped, to four parts within their limits; the result is garbled exactly for an inherited name with a legal sequence and parts within limits. |
| `Msix.OrderIsEmbedded` | tooling/tegami-msix/src/version.ts:10-31 | On plain versions, precedence by section 11 of SemVer 2.0.0 is exactly the order of package versions. |
| `Msix.PlainFormDecides` | tooling/tegami-msix/src/version.ts:10-31 | Any two mapped versions are ordered, and equal, exactly as their plain forms are. |
| `Msix.BareChannelIsNotOrdered` | tooling/tegami-msix/src/version.ts:21-21 | `alpha` precedes `alpha.0`, and both get one package version. |
| `Msix.InheritedNameIsGarbled` | tooling/tegami-msix/src/version.ts:21-30 | `1.0.0-constructor.0` gives text that is no version. |
| `Candidates.MatchAlpha` | tooling/release/src/candidate.ts:12-12 | A match takes the version apart into base and numeral. |
| `Candidates.AlphaIsMatched` | tooling/release/src/candidate.ts:12-12 | Every version of the form is matched with its own parts. |
| `Candidates.CandidateNeverLowers` | tooling/release/src/candidate.ts:5-18 | A candidate keeps its base, takes the given sequence, and never has a lower package version. |

## Left out

- Ed25519, SHA-256, X.509, PEM, JSON and RFC 8785: library calls, abstracted as described under Conventions.
- The Zenoh probe, process signals and file-system calls are open outcomes; a child that was killed counts as gone.
- A child counts as gone when the Supervisor's process dies, which holds where the Supervisor is the first process of its container; killing on drop does not happen after `SIGKILL`.
- A child that has exited on its own counts as running until an observation finds it out, and finding it out clears child and readiness in one point.
- The exclusive lock of the state directory, which makes the Supervisor its only writer: a life is one process at a time.
- Zenoh's `$*` inside a chunk is taken as plain text, so `WildRequestStaysInside` and `WildIsolation` do not speak of requests that use it.
- Zenoh's verbatim chunks, which begin with `@` and which wildcards do not match: the evaluator lets `*` and `**` match them, so for keys with such chunks it allows more than Zenoh does.
- The text of status messages and the distinction between errors of one operation.
- `_Field` is a value that the splitter replaces, not an object that it updates; it is never shared.
- `str.strip`, `str.lower` and time zone conversion of fingerprint inputs are a function value and UTC fields.
- Lone surrogates in Python strings: characters of the model are Unicode scalar values.
- `Supervisor.RouterSupervisor.Apply`: does not promise the exact facts of the applied policy in every acknowledgement, nor that the policy is unexpired when a repetition or an activation is acknowledged, because the code does not; the contract gives the exact condition for the facts and the time of the last check.
- `Candidates.CandidateNeverLowers`: assumes of the parser of semantic versions how it reads `x.y.z-alpha.N` with a sequence of at most 999, and nothing else.
- `management.rs` and `main.rs` of the Router: plumbing around the handle.
- Device Center, the Agent, the Controller's web and database code, and the other migrations: wiring over libraries or user interface.
- Release planning beyond the version of a candidate, and the other Windows packaging steps.
