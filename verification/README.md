# RCLP in Dafny: leases, gate, replay stores, audit chain and edge verifier

RCLP is a lease protocol for robots. A policy service decides on a capability request and
issues a short-lived, possibly narrowed lease. A command gate on the robot's edge enforces
the lease against a durable replay table and durable revocation tables, and records every
step in a hash-chained audit log. A second verifier, written in Rust, takes the same kind of
decision with marker files as its replay store. This project models these pieces and proves
what they promise, alone and together.

`dafny verify dfyconfig.toml` checks everything.

## Structure

| files | content |
|---|---|
| `Json`, `JsonParser` | JSON values, the canonical printer, and a parser that reads its texts back |
| `PayloadBudget`, `PayloadText` | the two payload budget traversals, and what their estimates measure |
| `Core`, `Leases`, `Conformance` | messages, lease lifetime and limits, `validate_lease_for_command` |
| `Policy`, `PolicyConditions`, `Grants` | the policy decision, request nonces, and how grants and enforcement fit together |
| `AuditRecord`, `Audit`, `AuditConditions`, `AuditReplay` | integrity proofs, the chain and its three validators, replay grouping |
| `Gate`, `GateObjects` | one `evaluate` and one `revoke` as functions of the stores, and the classes that compute them |
| `GateConditions`, `GateDenials`, `RevocationConditions` | what an allow, a denial and a revocation mean |
| `GateRuns`, `RevocationRuns`, `FallbackRuns`, `SoleWriter`, `RequestedFallback` | whole runs of many gates over shared stores |
| `GateAudit` | that the audit log accepts what gates record |
| `GateSamples`, `GateWitnesses` | a small gate configuration, and runs that show what the theorems leave open |
| `MarkerProtocol`, `MarkerStore`, `MarkerOutcome` | the marker-file store as a concurrent protocol, as a class, and by its outcome |
| `EdgeVerifier`, `EdgeVerifierLaws`, `EdgeConditions`, `EdgeDenials` | the Rust `verify`, its laws, and what its verdicts mean |
| `EdgeSamples`, `Refinement` | inputs that reach the laws, and the relation of `verify` to the Python gate |

Conventions. Times are integers in milliseconds and metrics are finite reals. A message that
reaches the model has passed its parser. Signature checks, digests and the numeric value of a
JSON number are function-valued parameters; where a theorem needs a digest to be injective it
says so. Fresh ids, clocks and I/O outcomes are inputs. A database transaction is one atomic
step. Code that updates objects or runs loops is a class or a method proved against a
function; theorems are about the functions. Reason codes are a datatype.

In `GateRuns` an evaluation is three steps (screen, validate, commit) and a revocation two
(store, publish). Steps of any number of calls on any number of gates interleave freely, gates
boot and crash at any time, also between a store transaction and its record, and every theorem
there holds for every such run. `AtomicEvaluate` and `AtomicRevoke` show that uninterrupted
steps amount to the object's own methods.

The decisions are pinned down twice. `Policy`, `Gate`, `EdgeVerifier` and `Audit` follow the code;
`PolicyConditions`, `GateConditions`, `RevocationConditions`, `EdgeConditions` and
`AuditConditions` say in positive form, field by field and without any of its checks, when the
answer is yes, and the two are proved equivalent. Every refusal names the first condition that
fails (`PolicyConditions.AnswerJustified`, `GateDenials.DenialExplained`,
`RevocationConditions.RefusalIsExplained`, `EdgeDenials.DenialExplained`).

The refinement of `Refinement` is stated over matched configurations and inputs that both sides
authenticate; `Refinement.RefinementIsInhabited` gives one.

## Where the code does not do what one would expect

Each of these is a theorem with its exact condition or a concrete witness.

- `commit_nonce_set` returns early, without rollback, when the store directory cannot be opened
  for syncing (`replay.rs:154`). A refused set then keeps its markers, against the contract in
  `replay.rs:44-49`. `MarkerProtocol.ContractKeptExactly` says when the contract is kept and
  `MarkerProtocol.EarlyReturnLosesKey` shows the loss. Exclusivity survives it.
- A gate that dies between consuming a command and recording the decision leaves rows that no
  audit event explains (`GateWitnesses.CrashLosesRows`); `GateRuns.RowsMatchAudit` accounts for
  them exactly.
- A running gate never learns of revocations that other gates store
  (`RevocationRuns.RunningGateLearnsNothing`, `GateWitnesses.RunningGateStillAllows`); only gates
  booted later do. An evaluation that is past validation when its own gate publishes the
  revocation may still allow, exactly while its rows are untaken
  (`RevocationRuns.LateAllowExactly`, `GateWitnesses.OvertakenCallStillAllows`).
- A better network can turn `degrade` into `deny`, because the requested constraints are looked
  at only once the network evaluation is passed (`Policy.WorseNetworkGainsExactly`,
  `Policy.WorseNetworkCanGain`).
- A policy that wants the robot outside its geofence is not what the gate enforces: the gate
  always insists on inside (`Grants.EnforcementWithinPolicy`, `Grants.OutsideIsNotEnforced`).
- The Rust payload budget charges one byte per array element and two per object field that the
  Python budget does not; `PayloadBudget.RustBudgetExactly` says which payloads that refuses.
- A command id or nonce made of U+001C to U+001F counts as present in Rust and as missing in
  Python (`Refinement.AuthRefined`, `Refinement.SeparatorIdIsMissingInPython`).
- The Rust verifier denies as a replay, on first use, a command with a line break in its agent
  id, command id or nonce, and a lease nonce with one or equal to a formatted command key
  (`EdgeVerifierLaws.FirstUseExactly`, `EdgeVerifierLaws.UnusableCountsAsReplay`,
  `EdgeSamples.LineBreakDeniesFirstUse`, `EdgeSamples.KeyAsNonceDeniesFirstUse`).
- An accepted lease nonce that equals another command's formatted key makes that command, never
  seen before, a replay; one agent and one configuration are enough
  (`EdgeVerifierLaws.SecondUseExactly`, `EdgeVerifierLaws.SharedKeyDeniesFirstUse`,
  `EdgeSamples.NonceDeniesOtherCommand`).
- Two agents share formatted command keys exactly when one name, up to a separator, starts the
  other (`EdgeVerifierLaws.AgentsShareKeysExactly`). One configuration trusts one agent, so this
  sharing takes two verifiers on one directory; there, too, a first use can be denied as a replay
  (`EdgeSamples.SharedDirectoryDeniesFirstUse`).
- A revocation declares one fallback, and denials of the revoked lease declare more under the same
  revocation id (`FallbackRuns.SameRevocationNamedTwice`,
  `GateWitnesses.RevocationNamedTwice`).

## Model

| member | source | states |
|---|---|---|
| Json.CanonicalDeterminesValue | crates/rclp-edge-verifier/src/canonical_json.rs:11-38 | for all nested trees, two values print to the same canonical text if and only if they are equal |
| Json.CanonicalUnambiguous | crates/rclp-edge-verifier/src/canonical_json.rs:11-38 | a canonical text followed by anything a value can be followed by splits in one way only |
| Json.StringUnambiguous | crates/rclp-edge-verifier/src/canonical_json.rs:16-18 | an encoded string is self-delimiting (section 7 of RFC 8259), in the UTF-8 and in the ASCII style |
| Json.CanonicalIgnoresKeyOrder | crates/rclp-edge-verifier/src/canonical_json.rs:23-35 | the printed object lists its keys in the one ascending order, however they were inserted |
| Json.BelowExactly | crates/rclp-edge-verifier/src/canonical_json.rs:24-25 | the order of keys: at the first difference, the text that has ended or has the smaller code point comes first |
| JsonParser.CanonicalReadsBack | crates/rclp-edge-verifier/src/canonical_json.rs:11-38 | round trip: a parser written from the grammar of RFC 8259 reads the canonical text of every nested value back as that value, in both styles |
| JsonParser.StringReadsBack | crates/rclp-edge-verifier/src/canonical_json.rs:16-18 | an encoded string, whatever follows it, decodes by section 7 of RFC 8259 to the string itself |
| JsonParser.ShortestString | crates/rclp-edge-verifier/src/canonical_json.rs:16-18 | no text that decodes to a string (for the ASCII style, no printable ASCII text) is shorter than its encoding |
| PayloadBudget.PythonBudgetViolation | src/rclp_ros2/command_gate.py:129-152 | the explicit-stack traversal with early exits terminates and answers true exactly when depth, node count or estimated bytes of the whole tree exceed their limits |
| PayloadBudget.PushFields | src/rclp_ros2/command_gate.py:143-148 | charging keys one by one with an early stop charges every key and pushes every child once, in any order |
| PayloadBudget.RustBudgetViolation | crates/rclp-edge-verifier/src/verifier.rs:558-591 | the same for the Rust traversal with its own weights and checked additions |
| PayloadBudget.RustNodeBytes | crates/rclp-edge-verifier/src/verifier.rs:593-614 | the saturating per-node estimate is the exact weight whenever that could be within the limit |
| PayloadBudget.RustBudgetWithinPython | crates/rclp-edge-verifier/src/verifier.rs:558-614 | every payload within the Rust budget is within the Python budget |
| PayloadBudget.RustBudgetExactly | crates/rclp-edge-verifier/src/verifier.rs:593-614 | a payload within the Python budget is within the Rust one if and only if its bytes still fit with one more per array element and two more per object field |
| PayloadBudget.RustTotalSplits | crates/rclp-edge-verifier/src/verifier.rs:604-611 | over every tree, the Rust estimate is the Python estimate plus exactly that surcharge |
| PayloadBudget.PythonBudgetNotWithinRust | src/rclp_ros2/command_gate.py:129-166 | such payloads exist: within the Python budget and outside the Rust one |
| PayloadText.RustEstimateMeasuresText | crates/rclp-edge-verifier/src/verifier.rs:593-614 | for every payload, the Rust estimate and the bytes of all escapes are the UTF-8 length of the canonical text and one byte per container that is not empty |
| PayloadText.PythonEstimateMeasuresText | src/rclp_ros2/command_gate.py:129-166 | the Python estimate is the same length short of one byte per array element and two per object field |
| PayloadText.Utf8LengthIsLeast | crates/rclp-edge-verifier/src/verifier.rs:593-614 | a character counts the least number of UTF-8 bytes that its code point fits into |
| Leases.HonouredInterval | src/rclp_core/leases.py:94-125 | a lease passes the time checks exactly on one interval of instants of a positive lifetime within the TTL, shorter than the TTL plus the skew |
| Conformance.BetterNetworkKeepsLease | src/rclp_core/conformance.py:283-304 | a lease accepted in a network state is accepted in every pointwise better one, all else equal |
| Conformance.ValidLeaseIsBound | src/rclp_core/conformance.py:66-156 | what passes lease validation is one authority chain: an entitled lease, honoured at this instant and not revoked, for exactly this agent, edge, robot, mission and capability, in an authentic and fresh state of the same robot |
| GateConditions.ValidExactly | src/rclp_core/conformance.py:39-156 | lease validation accepts if and only if lease, limits, subject, state and payload meet every condition, each written out over raw fields |
| Policy.RequestReplayCache.Consume | src/rclp_core/policy.py:162-188 | succeeds exactly when the agent's nonce is new, and then adds it and nothing else |
| Policy.RequestReplayCache.EvaluateInputs | src/rclp_core/policy.py:562-711 | computes the decision function and consumes a nonce exactly where that function does |
| Policy.NonceFinality | src/rclp_core/policy.py:592-604 | over every run of services sharing a store, each agent and nonce reaches at most one decision past the replay check |
| Policy.RefusedNeverAllowed | src/rclp_core/policy.py:603-711 | a nonce refused past the replay check is never allowed later, whoever presents it and after whatever run |
| PolicyConditions.AllowedExactly | src/rclp_core/policy.py:562-711 | a request is allowed if and only if it is genuine, its nonce unseen, and policy, states, site, network and requested constraints meet every condition; the grant is then, field by field, the tighter of the policy's and the requested limit |
| PolicyConditions.DegradedExactly | src/rclp_core/policy.py:529-559 | it is degraded if and only if all but the network is met, and the network is within the denial limits without meeting the thresholds |
| PolicyConditions.ConsumedExactly | src/rclp_core/policy.py:578-604 | a nonce is consumed exactly by a genuine request that shows it first, whatever is decided; any other request is denied and consumes nothing |
| PolicyConditions.AnswerJustified | src/rclp_core/policy.py:578-709 | every other answer names the first condition that fails, in the order of the source, offers the fallback that goes with it, and no constraints |
| Policy.NetworkRankMonotone | src/rclp_core/policy.py:529-559 | a pointwise worse network is never evaluated to a higher decision |
| Policy.WorseNetworkGainsExactly | src/rclp_core/policy.py:693-711 | the whole decision is monotone in the network if and only if not: all earlier checks pass, the requested constraints are refused, the better network is good and the worse one degraded |
| Policy.WorseNetworkCanGain | src/rclp_core/policy.py:693-711 | a valid policy and request for which a degraded network is answered with degrade and a good one with deny |
| Grants.GrantedLifetime | src/rclp_core/leases.py:42-80 | a lease issued from an ALLOW lives no longer than the policy TTL, and any two instants at which a gate honours it are less than the TTL plus the skew apart |
| Grants.NarrowingNeverBroadens | src/rclp_core/policy.py:372-444 | a requested narrowing is accepted if and only if applying it broadens nothing |
| Grants.GrantFitsGate | src/rclp_core/policy.py:697-726 | constraints returned with ALLOW are never broader than the policy's, well formed, within the policy's bounds, and meet a requirement if and only if a required speed ceiling exists in the policy |
| Grants.GrantingStateAccepted | src/rclp_core/conformance.py:265-304 | the granting state is accepted for the lease if and only if the robot is inside its geofence and the network meets the narrowed thresholds |
| Grants.CommandWithinGrant | src/rclp_core/policy.py:606-623 | a command any gate lets through on a lease issued from an ALLOW has an agent, edge, robot and mission the policy lists and comes before the policy TTL has passed since the grant |
| Grants.GrantedUseExactly | src/rclp_core/leases.py:42-80 | at a gate that accepts grants of the policy, a command on a lease issued from an ALLOW is allowed if and only if the lease is in force, the command is genuine, local and names the grant, a genuine state and the speed are within the granted limits, and the rows are fresh |
| Grants.EnforcementWithinPolicy | src/rclp_core/conformance.py:265-339 | whatever the gate lets through comes on a connected network within the policy's thresholds, which the policy evaluation neither denies nor degrades, within its speed ceiling, and within its geofence if and only if that is not required or wants the robot inside |
| Grants.OutsideIsNotEnforced | src/rclp_core/conformance.py:277-281 | a gate configured from a valid policy that wants the robot outside accepts a lease and a command inside |
| AuditRecord.ProofCoversFields | src/rclp_core/audit.py:238-261 | with an injective hash, equal integrity proofs mean equal previous hash and equal values of every covered field |
| AuditRecord.ProofIgnoresLinks | src/rclp_core/audit.py:238-261 | the proof does not depend on the event's own stored link and proof, which is why append may fill them in |
| AuditRecord.StableHashInjective | src/rclp_core/models.py:426-434 | hashing the canonical text with an injective digest is injective on JSON values |
| AuditRecord.StableHashesCover | src/rclp_core/audit.py:233-261 | payload hash and proof together determine an event in every field |
| AuditConditions.ProofTextReadsBack | src/rclp_core/audit.py:238-261 | the proof is the digest of a text that parses to an object naming every covered field of the event, and the previous hash, by its wire name |
| Audit.DigestPinsTheLog | src/rclp_core/audit.py:233-261 | under the log's own hashing (a digest of the canonical text) over an injective digest, a chain head pins down the whole list and append, re-append and import accept the same lists |
| Audit.TamperEvidence | src/rclp_core/audit.py:402-449 | two non-empty accepted lists with the same chain head are equal in every field, payloads included |
| Audit.AuditLog.Append | src/rclp_core/audit.py:101-120 | appends exactly the committed event or refuses and changes nothing, and keeps the log a valid chain |
| Audit.LoadEvents | src/rclp_core/audit.py:410-449 | accepts exactly the lists that form a chain and fit the import profile and trusted head, and returns them unchanged |
| Audit.BatchChainViolation | src/rclp_core/audit.py:267-291 | reports no fault exactly for non-empty chains, and otherwise the first fault of the first faulty event |
| Audit.ThreeValidatorsAgree | src/rclp_core/audit.py:101-120 | what append builds is a chain; a list is a chain if and only if appending it to a fresh log reproduces it, and if and only if import with its own head accepts it |
| Audit.BatchCommitsToOneList | src/rclp_core/audit.py:311-348 | a created batch verifies against its own events, and any batch against at most one list |
| AuditConditions.ChainExactly | src/rclp_core/audit.py:267-291 | a list is a chain if and only if every event has a new id, its authority context, its payload's hash, the proof before it as its link, and its own proof |
| AuditConditions.FaultExactly | src/rclp_core/audit.py:267-291 | an event is without fault if and only if it is in place, and otherwise its fault is the first thing that is wrong with it |
| AuditConditions.AppendedExactly | src/rclp_core/audit.py:101-120 | append takes an event if and only if id, context and payload hash are right and the links it brings are those it gets, and only fills in the links |
| AuditConditions.ImportedExactly | src/rclp_core/audit.py:410-449 | import takes a list if and only if it is a chain that ends in the trusted head, or, for diagnostics, holds no event with authority |
| AuditConditions.BatchExactly | src/rclp_core/audit.py:311-348 | a batch verifies against a list if and only if the list is a chain and the batch is the one created from it |
| AuditConditions.BatchPayloadTells | src/rclp_core/audit.py:294-306 | what a batch commits to names, by wire name, the ids, their number in decimal digits, the chain head and every event in order |
| AuditReplay.ByCorrelationId | src/rclp_core/audit.py:166-170 | one group per correlation id of the log, each the in-order filter of the log |
| AuditReplay.ReplayGroup | src/rclp_core/audit.py:175-201 | each of the seven buckets is the in-order filter of the group by its event types |
| AuditReplay.BucketTells | src/rclp_core/audit.py:175-201 | every item of a bucket tells id, type, actor and references of an event of that correlation whose type belongs in the bucket |
| AuditReplay.Replay | src/rclp_core/audit.py:172-203 | every bucket of every group is the in-order filter of the log |
| AuditReplay.ReplayConserves | src/rclp_core/audit.py:172-203 | all bucket sizes sum to the length of the log |
| AuditReplay.LandsInOnePlace | src/rclp_core/audit.py:172-203 | with distinct ids, every event's item stands in the bucket of its type in the group of its correlation, once, and at no other place of the replay |
| Gate.AllowedIsBound | src/rclp_ros2/command_gate.py:1065-1136 | an allowed command was recently signed by the agent its lease names, is addressed to this edge and backed end to end by an entitled, honoured and unrevoked lease; a given state is attached, of a known profile, within the lease's thresholds and inside its geofence |
| GateConditions.AllowedExactly | src/rclp_ros2/command_gate.py:1065-1136 | a command is allowed if and only if command, lease, state and payload meet every condition, each written out over raw fields, and none of the three rows of the use is taken; it then takes exactly these |
| GateDenials.DenialExplained | src/rclp_ros2/command_gate.py:1072-1182 | every denial names the first condition that fails, in the order of the source: on the command, else on edge, replay and lease, else on lease, state or payload |
| GateDenials.EventTells | src/rclp_ros2/command_gate.py:1137-1224 | the first audit event names key, robot, mission, lease and reason of every authenticated command, with the lease nonce exactly when it was allowed, and claims nothing for any other command |
| GateDenials.DeclaredExactly | src/rclp_ros2/command_gate.py:1233-1250 | a fallback is declared exactly on a denial for one of the six network and geofence reasons, or for a revoked lease whose matching revocation the gate remembers; that denial has consumed the command and its one declaration, and the record of it, name robot, edge, mission, lease, trigger, action and revocation |
| Gate.RevokedIsBound | src/rclp_ros2/command_gate.py:853-1033 | a revocation takes effect only if signed by a trusted revoker scoped to this edge, about this very lease, new, and both its times within the age limit and the skew |
| RevocationConditions.AcceptedExactly | src/rclp_ros2/command_gate.py:853-1063 | a revocation is accepted if and only if it is genuine, about this lease (any robot, mission or capability it names included) and its id is new; tables, memory and declaration are then as stated, and a refusal changes nothing |
| RevocationConditions.RefusalIsExplained | src/rclp_ros2/command_gate.py:853-1019 | a refused revocation names the first condition that fails, recorded under the lease's robot and mission; the revoker is named as actor only once its signature is verified |
| RevocationConditions.DenialNamesRevocation | src/rclp_ros2/command_gate.py:1462-1491 | after an accepted revocation, a command on that lease denied as revoked declares one fallback with the revocation's id and correlation id and the action for the revoker's reason |
| Gate.ConsumptionLaw | src/rclp_ros2/command_gate.py:1065-1182 | an evaluation adds three fresh rows when it allows, two when lease validation refused, none otherwise, and its first audit event tells which |
| Gate.FinishLaw | src/rclp_ros2/command_gate.py:1124-1182 | the same for the part after validation, whatever the store looks like by then |
| Gate.DenialSharesGroup | src/rclp_ros2/command_gate.py:1234-1308 | a denial emits at most one fallback, recorded right after it under the same correlation id, and every event carries the context the log insists on |
| Gate.RevocationSharesGroup | src/rclp_ros2/command_gate.py:1034-1063 | the same for a fallback declared by a revocation |
| GateAudit.LogAcceptsGate | src/rclp_core/audit.py:122-153 | in every run, whatever a gate recorded is accepted by an audit log that gives it fresh ids: nothing is refused, and the result is a chain holding the gate's events in order, each with all that the gate recorded |
| GateObjects.CommandReplayCache.Remember | src/rclp_ros2/command_gate.py:511-568 | inserts both command rows or leaves no trace |
| GateObjects.CommandReplayCache.RememberAuthorizedUse | src/rclp_ros2/command_gate.py:575-631 | inserts all three rows or none, and then names the first conflict |
| GateObjects.CommandReplayCache.Contains | src/rclp_ros2/command_gate.py:641-665 | predicts the transactions: true exactly for an authenticated command that `remember` would refuse, and then `remember_authorized_use` refuses it as a replay under every lease |
| GateObjects.RevocationStore.Record | src/rclp_ros2/command_gate.py:345-416 | refuses a known revocation id and otherwise inserts the message and upserts the lease in one step |
| GateObjects.CommandGate.constructor | src/rclp_ros2/command_gate.py:786-793 | a new gate remembers exactly the stored revocations |
| GateObjects.CommandGate.Evaluate | src/rclp_ros2/command_gate.py:1065-1182 | changes rows, log and fallback list as the evaluation function says, leaves the revocations alone and keeps memory and store equal |
| GateObjects.CommandGate.Revoke | src/rclp_ros2/command_gate.py:799-1063 | changes tables, memory, log and fallback list as the revocation function says, and keeps memory and store equal |
| GateRuns.AtomicEvaluate | src/rclp_ros2/command_gate.py:1065-1182 | the three steps of an uninterrupted evaluation amount to one evaluation |
| GateRuns.AtomicRevoke | src/rclp_ros2/command_gate.py:1024-1063 | the two steps of an uninterrupted revocation amount to one revocation |
| GateRuns.SingleUse | src/rclp_ros2/command_gate.py:575-631 | in every run of gates sharing a replay table, under every interleaving and restart, no two allowed commands share a lease nonce, or an agent's command id or command nonce |
| GateRuns.RowsMatchAudit | src/rclp_ros2/command_gate.py:1083-1182 | after every run from an empty table, lease-nonce rows count the allowed events, and command-id and command-nonce rows those plus the lease denials, up to the rows of decisions lost in crashes |
| GateRuns.NothingLostOtherwise | src/rclp_ros2/command_gate.py:1125-1168 | rows are lost only where a gate dies between a store transaction and its audit record |
| GateWitnesses.CrashLosesRows | src/rclp_ros2/command_gate.py:1125-1168 | a run in which such a crash leaves three rows and no event |
| RevocationRuns.RevocationPermanent | src/rclp_ros2/command_gate.py:1117 | a gate barred from a lease (it knows the revocation, and no call of its own is past validation with its rows untaken) never allows it again in any continuation, restarts included |
| RevocationRuns.LateAllowExactly | src/rclp_ros2/command_gate.py:1099-1136 | a gate that knows of a revocation can still allow the lease in some continuation if and only if a call of its own is past validation and none of that call's three rows is taken, that is, if and only if it is not barred |
| RevocationRuns.OnlyPastAllowed | src/rclp_ros2/command_gate.py:1024-1117 | once a gate knows of a revocation, in any continuation the commands it still allows on that lease are, in order, those of distinct calls that were already past validation then; when one can still happen is `LateAllowExactly` |
| GateWitnesses.OvertakenCallStillAllows | src/rclp_ros2/command_gate.py:1099-1128 | a run in which such a call allows after its own gate has published the revocation |
| RevocationRuns.WhoIsBarred | src/rclp_ros2/command_gate.py:788 | in every reachable state, barred are all gates booted after the revocation was stored, and the gate that publishes it if and only if none of its calls past validation has its rows untaken |
| RevocationRuns.RunningGateLearnsNothing | src/rclp_ros2/command_gate.py:788 | a running gate's verdicts are untouched by other gates' revocations: it refuses exactly the ids loaded at boot or published by itself |
| GateWitnesses.RunningGateStillAllows | src/rclp_ros2/command_gate.py:788 | a run in which one gate has stored and published a revocation and another, already running, then allows the lease |
| SoleWriter.SoleWriterInSync | src/rclp_ros2/command_gate.py:307-343 | for a sole writer the memory equals the stored table, record for record, after every call and restart |
| FallbackRuns.FallbackAtMostOnce | src/rclp_ros2/command_gate.py:1169-1182 | over all gates and restarts no two declarations are made on revoking one id, or on denials sharing an agent's command id or nonce, and the log holds exactly the declarations made, in order |
| FallbackRuns.SameRevocationNamedTwice | src/rclp_ros2/command_gate.py:1233-1253 | in every run a declaration made on revoking names that revocation, one made on a denial names a revocation if and only if it answers a revoked lease, and of two declarations naming the same revocation at least one answers such a denial |
| GateWitnesses.RevocationNamedTwice | src/rclp_ros2/command_gate.py:1233-1253 | a run in which a revocation declares a fallback and a denial of the revoked lease declares one under the same revocation id |
| RequestedFallback.RequestedFallbackIgnored | src/rclp_ros2/command_gate.py:1373-1394 | runs that differ only in the fallback actions requested by revocations consume, decide and declare the same, actions included |
| MarkerProtocol.MarkerExclusive | crates/rclp-edge-verifier/src/replay.rs:104-165 | under every interleaving of creates, writes, syncs, rollbacks, I/O errors and crashes, no key belongs to two calls that report success |
| MarkerProtocol.SuccessIsPermanent | crates/rclp-edge-verifier/src/replay.rs:127-158 | the markers of a successful call stay on disk through every later step of anyone |
| MarkerProtocol.ApplyKeepsInv | crates/rclp-edge-verifier/src/replay.rs:127-165 | every step keeps ownership: held markers exist and belong to one call, so a rollback removes nobody else's |
| MarkerProtocol.OriginalStays | crates/rclp-edge-verifier/src/replay.rs:127-165 | markers present at the start stay through every run, and no call that reports success consumed one of them |
| MarkerProtocol.RejectionLeavesNothing | crates/rclp-edge-verifier/src/replay.rs:154-165 | after a rejection the disk is as before if and only if no removal failed and the directory could be opened |
| MarkerProtocol.ContractKeptExactly | crates/rclp-edge-verifier/src/replay.rs:44-49 | the same for a whole call: when the all-or-nothing contract is kept |
| MarkerProtocol.EarlyReturnLosesKey | crates/rclp-edge-verifier/src/replay.rs:154-157 | a run in which the call is refused and its key stays consumed |
| MarkerProtocol.FirstUnusable | crates/rclp-edge-verifier/src/replay.rs:119-125 | the least index of a malformed or repeated key |
| MarkerStore.FaultFreeConsume | crates/rclp-edge-verifier/src/replay.rs:119-159 | without I/O errors a rejected set names the least unusable index, else the least index already present, and changes nothing; otherwise all markers are added |
| MarkerOutcome.ConsumeOutcome | crates/rclp-edge-verifier/src/replay.rs:104-198 | answer and disk of every call, single key or set, under every I/O behaviour, told from the number of the first operation that fails and of the removals that fail |
| MarkerOutcome.ConsumedExactly | crates/rclp-edge-verifier/src/replay.rs:119-159 | a call reports success if and only if every key is usable, the markers are new and distinct, and every one of its 2n + 2 operations succeeds |
| MarkerOutcome.SuccessNeedsEveryOperation | crates/rclp-edge-verifier/src/replay.rs:127-159 | in every run of many callers, a call that reports success has had 2n + 2 operations, all successful |
| MarkerProtocol.ConsumeIsRun | crates/rclp-edge-verifier/src/replay.rs:119-198 | a whole call, whatever its I/O does, is a run of the shared store, so what holds of every run holds of it |
| MarkerStore.FileReplayCache.ConsumeNonces | crates/rclp-edge-verifier/src/replay.rs:119-198 | the loops carry out exactly the protocol, for every I/O behaviour |
| MarkerStore.FileReplayCache.ConsumeNonce | crates/rclp-edge-verifier/src/replay.rs:104-117 | the same for a single key |
| MarkerStore.FileReplayCache.RemoveMarkers | crates/rclp-edge-verifier/src/replay.rs:161-165 | removes the call's own markers in order, ignoring failed removals |
| EdgeVerifierLaws.TimesExact | crates/rclp-edge-verifier/src/verifier.rs:374-393 | past the nonnegativity guard every 64-bit time check is its integer reading, apart from windows that do not fit 64 bits, which deny |
| EdgeVerifierLaws.OpenIsBound | crates/rclp-edge-verifier/src/verifier.rs:107-234 | whatever the Rust checks leave open is one authority chain over agent, edge, robot, mission and capability, each part signed under its trusted secret |
| EdgeConditions.AllowedExactly | crates/rclp-edge-verifier/src/verifier.rs:64-237 | the checks allow if and only if input, command, policy, lease, requirement, bound, state and payload meet every condition, each written out over raw fields, and the network is connected and meets the lease's thresholds |
| EdgeConditions.DegradedExactly | crates/rclp-edge-verifier/src/verifier.rs:907-943 | they degrade if and only if the same holds with a connected network that misses a threshold of a lease that names a fallback and asks for degrading; the policy's bound then asks for it too |
| EdgeDenials.DenialExplained | crates/rclp-edge-verifier/src/verifier.rs:64-237 | every denial before the replay store names the first condition that fails, in the order of the source (an unaccepted policy goes before everything wrong with the command) |
| EdgeVerifierLaws.DegradeExactly | crates/rclp-edge-verifier/src/verifier.rs:907-943 | an open decision is degrade if and only if a threshold is exceeded, and then on an attached network whose lease names a fallback and asks for degrading |
| EdgeVerifier.FinalReplay | crates/rclp-edge-verifier/src/verifier.rs:451-472 | the open decision becomes final exactly when the three formatted keys are consumed together |
| EdgeVerifier.Verify | crates/rclp-edge-verifier/src/verifier.rs:53-258 | store and decision after `verify` are those of the specification, for every I/O behaviour |
| EdgeConditions.VerifyAllowsExactly | crates/rclp-edge-verifier/src/verifier.rs:53-258 | `verify` allows if and only if the store is durable, the checks allow, the three spelled-out keys are usable and new, and all eight store operations succeed, for every I/O behaviour |
| EdgeVerifierLaws.ConcludeLaw | crates/rclp-edge-verifier/src/verifier.rs:238-257 | fault-free: accepted if and only if the checks leave it open and the three keys are usable, distinct and fresh; then exactly three markers are added, and a denial changes nothing |
| EdgeVerifierLaws.StoreSizeLaw | crates/rclp-edge-verifier/src/verifier.rs:451-472 | after any run of `verify` on a fault-free store it holds its initial markers plus three per allowed or degraded command |
| EdgeVerifierLaws.VerifierSingleUse | crates/rclp-edge-verifier/src/verifier.rs:451-472 | in every run of any number of verifiers on one directory, under all interleavings, I/O errors and crashes, two accepted commands share no lease nonce, and for one agent no command id or nonce |
| EdgeVerifierLaws.VerifyIsRun | crates/rclp-edge-verifier/src/verifier.rs:238-257 | a call of `verify` that its checks left open is such a run, and accepts exactly when its store call succeeds |
| EdgeVerifierLaws.AcceptedIsFresh | crates/rclp-edge-verifier/src/verifier.rs:238-257 | whatever the I/O does, a call never removes a marker it found, and an accepted one found none of its three and leaves all of them |
| EdgeVerifierLaws.FirstUseExactly | crates/rclp-edge-verifier/src/replay.rs:119-125 | the first use of an open command on an empty fault-free store is accepted if and only if agent id, command id and command nonce have no line break and the lease nonce is a valid text other than the two formatted keys |
| EdgeVerifierLaws.UnusableCountsAsReplay | crates/rclp-edge-verifier/src/replay.rs:201-203 | otherwise it is denied on every store and whatever the I/O does, with the store untouched: as a replayed command when its own texts have a line break, else as a replayed nonce |
| EdgeSamples.LineBreakDeniesFirstUse | crates/rclp-edge-verifier/src/replay.rs:201-203 | an input that passes every check, with a line break in its command id, denied on first use |
| EdgeSamples.KeyAsNonceDeniesFirstUse | crates/rclp-edge-verifier/src/verifier.rs:465-471 | an input that passes every check, whose lease nonce is its own formatted key, denied on first use |
| EdgeVerifierLaws.AgentsShareKeysExactly | crates/rclp-edge-verifier/src/verifier.rs:457-464 | two agents can share a formatted key, of either kind, if and only if they are the same or one name followed by the separator starts the other, and then with ids and nonces a verifier admits |
| EdgeVerifierLaws.SecondUseExactly | crates/rclp-edge-verifier/src/verifier.rs:451-472 | fault-free, after an accepted command another open one is accepted if and only if its texts are usable, its keys were not on the store before, and none of them equals a key just consumed |
| EdgeVerifierLaws.SharedKeyDeniesFirstUse | crates/rclp-edge-verifier/src/verifier.rs:451-472 | a never-seen usable command sharing any of its three keys with any of those just consumed is denied with the store unchanged: as a replayed command when one of its own two keys is taken, else as a replayed nonce |
| EdgeSamples.NonceDeniesOtherCommand | crates/rclp-edge-verifier/src/verifier.rs:457-471 | one agent, one configuration, two inputs that pass every check: the lease nonce of the first is the key of the second, which is denied as a replayed command |
| EdgeSamples.SharedDirectoryDeniesFirstUse | crates/rclp-edge-verifier/src/verifier.rs:451-472 | agents `a` and `a:b` on one directory share a command key, and the second, never seen before, is denied although both inputs pass every check of their verifiers |
| Refinement.RustAllowRefinesPython | crates/rclp-edge-verifier/src/verifier.rs:140-257 | under matched configuration every input that passes the Rust checks is local and passes Python authentication and lease validation if and only if what only Python looks at holds |
| Refinement.RefinementIsInhabited | crates/rclp-edge-verifier/src/verifier.rs:140-257 | there is a matched configuration and an input that Rust allows and that meets what only Python looks at |
| Refinement.WireTextsTranslate | src/rclp_core/models.py:47-64 | capabilities and fallback actions translate between the two sides by their wire texts, without loss |
| Refinement.AuthRefined | src/rclp_ros2/command_gate.py:1317-1371 | an admitted command passes Python authentication if and only if its id and nonce are nonblank for Python and its signature verifies there |
| Refinement.LeaseRefined | src/rclp_core/conformance.py:66-133 | a lease past the Rust lease checks passes the Python ones if and only if its signature verifies there |
| Refinement.StateRefined | src/rclp_core/conformance.py:134-155 | the local state passes the Python state checks if and only if its signature verifies and its creation time is fresh |
| Refinement.PayloadRefined | src/rclp_core/conformance.py:307-339 | a payload past the Rust speed checks passes the Python ones |
| Refinement.SeparatorIdIsMissingInPython | src/rclp_ros2/command_gate.py:1325-1326 | an input whose command id is U+001C: Rust allows it, Python answers COMMAND_ID_MISSING |
| Refinement.DegradeIsDenied | crates/rclp-edge-verifier/src/verifier.rs:907-943 | what Rust degrades passes Python authentication and is denied by Python lease validation for the network threshold it exceeds |
| Refinement.AllowPassesTheGate | src/rclp_ros2/command_gate.py:1083-1136 | whatever the I/O of the verifier does and whatever its digest: if every row of the gate has its marker, an input that the verifier allows and that meets what only Python looks at is allowed by a matched gate, and afterwards every row has its marker again |
| Refinement.BehindTheVerifier | scripts/run_cross_language_conformance.py:29-120 | over every run of any number of verifiers on one directory, under all interleavings, I/O errors and crashes, a gate whose table is mirrored there at the start (an empty one is) and whose configuration is matched allows every input that the verifiers allowed and that meets what only Python looks at, in whatever order it is asked |
| Refinement.BehindOneByOne | scripts/run_cross_language_conformance.py:29-120 | the same for inputs that pass verifier and gate one after the other with any I/O, allowed, degraded, denied or failed in any mixture: the gate refuses nothing of what the verifier allowed and stays mirrored |

## Left out

- Ed25519, HMAC, SHA-256, base64 and the signature algorithm fields: one abstract predicate per kind of message stands for algorithm, text size limits and signature together, so their separate reason codes are not told apart.
- The signed-text budgets and the truncation of diagnostic text: straight-line checks; only the payload budget is modelled.
- Parsing: pydantic and serde coercion, unknown fields, YAML policies, JSON lines, naive timestamps and `verify_json_value`; the model starts from validated values.
- NaN, infinities and floating-point rounding; Python's equality of a boolean with a number in the two speed fields.
- SQLite and file system mechanics below a transaction or a single file operation, the backfill of old revocation rows, and the in-memory variants of the stores that the gate and the policy service refuse to use.
- The columns of the replay table beside its primary key, and the layout of event payloads, summaries, state references and related message ids of gate events.
- Order of the revocation checks between unknown key and bad signature: the text size, algorithm and signature checks are one abstract check that comes after the key lookup.
- Raw lease-id revocation (`revoke` with a string), which always raises; and signing and delivering fallback declarations to a sink.
- The gate object keeps its events before they get ids and payloads; `GateAudit` adds both as inputs. A colliding id, which `append` refuses, is not modelled on the gate's side.
- Overflow of the key-length sum in the Rust estimate, which would need a key of machine-word size.
- The Rust audit event, which has a global counter and the system clock; attestation, the fallback module, the remote part of the state module, demo, daemon, evaluation and command-line code.
- Payload-derived labels of replay items and `replay_summary`: presentation.
- GateRuns.RowsMatchAudit: without the lost rows the count is exact only for runs without a crash between transaction and record, which `GateRuns.NothingLostOtherwise` says.
- GateRuns.SingleUse: speaks of the database as one shared table; a gate pointed at another store file is another run.
- Refinement.RustAllowRefinesPython: drops `not_before` and the network violation action, which Python has no counterpart for; a fallback text that Python would not parse is read as the default action.
- EdgeVerifierLaws.SecondUseExactly: like `EdgeVerifierLaws.ConcludeLaw`, `EdgeVerifierLaws.FirstUseExactly` and `EdgeVerifierLaws.SharedKeyDeniesFirstUse` it says when a use is accepted, which an I/O error can prevent, so these are for fault-free I/O and a digest without collisions.
- EdgeVerifierLaws.StoreSizeLaw: is for fault-free I/O, because the early return and failed removals change the size; single use needs no such premise.
