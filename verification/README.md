# psky in Dafny

A model of psky's four cores, with proofs of what each keeps over every input and every run.

- **Repository** (`Ordered`, `Ipld`, `Mst`, `MstReader`, `Json`, `Records`, `Syntax`, `Tid`,
  `Repository`, `Car`, `History`): record maps become a Merkle search tree, a signed commit and a
  CARv1 stream. The reading side, a tree walk that rebuilds compressed keys and a CAR parser, is the
  specification, written after the "MST Structure" and "CAR File Serialization" sections of the
  ATProto repository specification and the "Header" and "Data" sections of the CARv1 specification.
- **Credential store** (`Credentials`, `CredentialStore`, `CredentialRuns`, `CredentialTokens`, `Binding`): the account,
  its passwords, its sessions and its evidence as a transactional state machine.
- **Account service** (`Chain`, `AuthorityProof`, `Settings`, `RateLimit`, `Account`, `AccountService`, `AccountRuns`,
  `AccountEvidence`, `ActionSteps`, `Crashes`, `NodeRuns`, `LoginEvidence`, `RevokedEvidence`,
  `EvidenceMark`, `HeightExample`, `LoginPolling`, `ActionSuccess`, `StoreRefinement`, `Scheduler`): Farcaster sign-in,
  the authority cache, the settings document and the operator actions. An action may be cut off at any
  await, any of its writes may fail, and the process may crash between any two of its store operations.
- **Decision cores** (`Health`, `Journal`): the preflight verdict and the event journal.

Objects that the program updates in place are classes. Each of their methods is proved equal to a
function of the old state, and the theorems are about these functions and about runs of them.
Code that only computes is functions.

What the program takes from libraries is a parameter, with these assumptions where a theorem names
them: the digest is injective, decoding inverts encoding, signatures check under their key and a
normalized signature has low S (`Ipld.Codec.Ideal`, `Repository.Signing.Sound`); textual identifiers
and base64 invert their own rendering (`Json.Texts.Ideal`); signed tokens open to what was signed and
stay within 4096 bytes for claims of short plain text (`Credentials.Env.Lawful`); stored evidence reads
back, and a proof parsed for a login also parses without its challenge (`Account.Env.Lawful`). What the
store assumes of identities and revisions is proved of the real ones in `Binding`. Random identifiers
are fresh. Clock readings, random values and the answers of the relay and of the Optimism node are
inputs of a step, and are otherwise arbitrary. Strings are their UTF-8 bytes.

## Findings

- The journal's page of size zero moves the cursor past events it did not show
  (`Journal.PageAccounts`); with the sizes 1 to 200 that the management API accepts, no event is
  lost unless a page says so.
- The sliding-window limit never refuses wrongly, and lets a request through wrongly exactly when
  requests that an earlier, later-running clock reading put out of the window make the difference
  (`RateLimit.JudgedExactly`). A request whose clock reading is the latest so far is always judged
  rightly (`RateLimit.LatestReadingIsRight`). Whatever the clock does, all requests are judged rightly
  if and only if the capacity is at most one (`RateLimit.ClockMatters`); the capacities in use are five
  and twenty, and `RateLimit.ClockSetBack` gives the run for each.
- Between revocations by the authority check the evidence falls behind the highest block it reached, or
  forks from it, exactly when a login completes below that mark while no evidence is held
  (`EvidenceMark.MonotoneExactly`). Evidence goes missing without such a revocation exactly when the
  poll of a login whose authority differs takes the old evidence away and does not get to storing its
  own (`EvidenceMark.EvidenceExactly`): the bind or the evidence write fails, the new authority or
  document is one that the store refuses, or the process crashes in between
  (`LoginEvidence.PollEvidence`, `LoginEvidence.VerifyCutEvidence`). `EvidenceMark.HeightCanGoBack`
  gives two such polls from any node in that position, and `HeightExample.HeightGoesBack` a run of a
  new node from block 10 to block 5. While no evidence is held there is no password, session or grant
  (`NodeRuns.NothingWithoutEvidence`).
- `revision` saturates: seconds beyond 18014398509 all get the same TID (`Tid.RevisionOrder`).

## Model

| member | source | states |
|---|---|---|
| Mst.Layer | crates/psky-repo/src/mst.rs:24-33 | the loop counts leading zero bits of the digest, two per layer |
| Mst.ZeroBitsExact | crates/psky-repo/src/mst.rs:24-33 | the count is z exactly when the digest, as a big-endian number, lies below 2^(8n-z) and not below half of that |
| Mst.LayerExactly | crates/psky-repo/src/mst.rs:24-33 | the layer reaches k exactly if the digest, as a number, leaves its top 2k bits empty |
| Mst.CommonPrefix | crates/psky-repo/src/mst.rs:64-77 | the longest common prefix of two keys, no longer and no shorter |
| MstReader.WireCompressed | crates/psky-repo/src/mst.rs:64-77 | every entry leaves out the longest prefix that its key shares with the key before, and keeps the rest |
| Mst.Anchors | crates/psky-repo/src/mst.rs:51-62 | the positions of the entries on this layer, in order, all and only those |
| Mst.BuildSubtree | crates/psky-repo/src/mst.rs:51-85 | for entries not above the layer the node's blocks are inserted, children first, and the CID is the tree's; it succeeds if and only if no entry lies above the layer |
| Mst.BuildEntries | crates/psky-repo/src/mst.rs:62-84 | the loop over anchors builds the compressed entries of the specified items and adds exactly their blocks |
| Mst.BuildChild | crates/psky-repo/src/mst.rs:87-99 | an empty range gives no link; otherwise the child lies one layer below; "layer underflow" arises if and only if the range is non-empty below layer zero |
| Mst.AddTreeIsUnion | crates/psky-repo/src/mst.rs:51-99 | threading the block map through the recursion adds exactly the tree's blocks to whatever was there |
| Mst.Build | crates/psky-repo/src/mst.rs:35-49 | building never fails, for any mapping, and leaves the old blocks and the tree's blocks |
| Mst.Top | crates/psky-repo/src/mst.rs:43-47 | the top layer bounds every entry and is attained, zero for no entries |
| MstReader.NodeRoundTrip | crates/psky-repo/src/mst.rs:9-22 | a node read from its encoded form is the node |
| MstReader.WalkTree | crates/psky-repo/src/mst.rs:51-99 | walking a stored tree by its links gives its entries in order and visits exactly its blocks |
| MstReader.SubtreeHolds | crates/psky-repo/src/mst.rs:51-85 | the tree of a range holds exactly that range, every key of layer L at depth top-L |
| MstReader.RoundTrip | crates/psky-repo/src/mst.rs:35-99 | from the root of a mapping, in any block map that contains its blocks, the walk gives exactly the mapping's listing and visits exactly the tree's blocks |
| MstReader.ListingAt | crates/psky-repo/src/mst.rs:35-49 | the listing is the mapping in ascending key order, each key exactly top minus its layer links below the root |
| MstReader.ListingDeterminesMapping | crates/psky-repo/src/mst.rs:35-49 | different mappings have different listings |
| MstReader.RootDeterminesMapping | crates/psky-repo/src/mst.rs:35-49 | equal roots come only from equal mappings |
| MstReader.NodeCount | crates/psky-repo/src/mst.rs:35-99 | at most max(1, n(top+1)) blocks are made for n keys |
| Json.JsonToIpld | crates/psky-repo/src/lib.rs:450-539 | conversion succeeds exactly when the value is well-formed, within 64 levels and its total cost fits the budget, which it lowers by exactly that cost |
| Json.ConvertArray | crates/psky-repo/src/lib.rs:450-539 | the same for the items of an array |
| Json.ConvertObject | crates/psky-repo/src/lib.rs:450-539 | the same for the members of an object |
| Json.RenderBack | crates/psky-repo/src/lib.rs:450-539 | a converted value has no `$link` or `$bytes` key, and rendering it and converting again gives the same value |
| Json.RenderedIsAccepted | crates/psky-repo/src/lib.rs:450-539 | the rendering of a converted value is accepted by any budget and depth that fit it |
| Json.ConvertRendered | crates/psky-repo/src/lib.rs:450-539 | every clean IPLD value is what its own rendering converts to |
| Json.RenderedIsOriginal | crates/psky-repo/src/lib.rs:450-539 | rendering a converted value gives the JSON that was converted, exactly when its base64 texts are canonical |
| Json.ScalarsKept | crates/psky-repo/src/lib.rs:461-472 | null, booleans, strings and safe integers stand for themselves; other numbers are refused |
| Json.ConvertsExactly | crates/psky-repo/src/lib.rs:450-539 | conversion accepts exactly safe integers, lone `$link` texts of blessed identifiers, lone `$bytes` base64 texts, and what is built of such |
| Json.HeightExactly | crates/psky-repo/src/lib.rs:451-453 | the nesting bound holds exactly if no value lies deeper, a wrapper being one level |
| Json.CostExactly | crates/psky-repo/src/lib.rs:454-460 | the cost is one for each value and one for each byte of text |
| Records.RecordSet.Put | crates/psky-repo/src/lib.rs:148-177 | files the record, which reads back to what the JSON stands for, with its exact byte count, or refuses and changes nothing |
| Records.RecordSet.Delete | crates/psky-repo/src/lib.rs:180-188 | removes the record and its bytes and says whether it was there; a bad path changes nothing |
| Records.StoredExactly | crates/psky-repo/src/lib.rs:148-177 | a put is acceptable exactly with an accepted path, a `$type` that names its collection, a well-formed value within depth, cost and encoded size |
| Records.FitsExactly | crates/psky-repo/src/lib.rs:154-173 | an acceptable put fits exactly if the records it would leave respect both caps |
| Records.StoredContent | crates/psky-repo/src/lib.rs:159-176 | a stored record decodes to what its JSON stands for, under its own CID |
| Records.RunContent | crates/psky-repo/src/lib.rs:148-188 | after any history, exactly the paths at which a value was last put have a record, and it decodes to what that value stands for |
| Records.PutKeeps | crates/psky-repo/src/lib.rs:148-177 | `encoded_bytes` stays the sum of the stored lengths, within both caps |
| Records.DeleteKeeps | crates/psky-repo/src/lib.rs:180-188 | the same after a delete; the subtraction never goes below zero |
| Records.RunKeeps | crates/psky-repo/src/lib.rs:148-188 | the counter is exact and both caps hold after every history, refused operations included |
| Records.HistoryForgotten | crates/psky-repo/src/lib.rs:148-188 | a record set is what putting its surviving values, in any order, into an empty set gives, and none of these puts is refused |
| Records.SameRecordsSameState | crates/psky-repo/src/lib.rs:148-188 | histories that leave the same records leave the same counter |
| Repository.Build | crates/psky-repo/src/lib.rs:302-341 | builds exactly the snapshot, or refuses the metadata |
| Repository.CommitRoundTrip | crates/psky-repo/src/lib.rs:255-284 | a commit read from its encoded form is the commit |
| Repository.SnapshotBlocks | crates/psky-repo/src/lib.rs:302-341 | a snapshot stores the commit, the tree's nodes and the records, each under its own CID, and nothing else |
| Repository.SnapshotCommit | crates/psky-repo/src/lib.rs:302-341 | the root block reads back to a version 3 commit of the given DID, revision and records, without predecessor, validly signed under the key with low S |
| Repository.BlocksAreClosure | crates/psky-repo/src/lib.rs:302-341 | the stored blocks are exactly those reachable from the commit, no more and no fewer |
| Repository.Verify | crates/psky-repo/src/lib.rs:390-433 | accepts if and only if all blocks are keyed by content and some well-formed, canonical, signed commit covers exactly these records with all blocks present; otherwise the error names the first of nine checks that fails |
| Repository.CheckCommit | crates/psky-repo/src/lib.rs:398-412 | returns the commit that the root block holds if it is well-formed, canonical and signed under the key, and fails only if none is, with the error of the first check that fails |
| Repository.VerifyComplete | crates/psky-repo/src/lib.rs:302-433 | `verify` accepts every built repository under its signer's key |
| Repository.VerifySound | crates/psky-repo/src/lib.rs:390-433 | whenever `verify` accepts, the signed root reads back within the stored blocks to exactly the record map, with each record's bytes present under its own CID |
| Repository.RootFixesRecords | crates/psky-repo/src/lib.rs:390-433 | two repositories that verify under one root have the same records |
| Repository.TamperingFails | crates/psky-repo/src/lib.rs:390-433 | dropping or changing any one block of a built repository makes `verify` fail |
| History.HistoryIndependent | crates/psky-repo/src/lib.rs:148-188 | for one DID, revision and key, two histories export the same CAR bytes if and only if they leave the same records |
| Car.Output.Varint | crates/psky-repo/src/car.rs:40-46 | the shifting loop appends the varint of its number |
| Car.Output.Block | crates/psky-repo/src/car.rs:33-38 | appends one section: length, CID, bytes |
| Car.Export | crates/psky-repo/src/car.rs:13-31 | the whole stream, or the missing-root error exactly when the root is absent |
| Car.VarintRoundTrip | crates/psky-repo/src/car.rs:40-46 | the decoder reads back every number and leaves the rest of the input |
| Car.VarintPrefixFree | crates/psky-repo/src/car.rs:40-46 | no varint is a prefix of another |
| Car.VarintMinimal | crates/psky-repo/src/car.rs:40-46 | nothing that decodes to a number is shorter than its varint |
| Car.CidRoundTrip | crates/psky-repo/src/car.rs:33-38 | a binary CID reads back |
| Car.CarRoundTrip | crates/psky-repo/src/car.rs:13-46 | parsing an export gives the root and the listed sections |
| Car.ListedIsTheMap | crates/psky-repo/src/car.rs:23-31 | the sections are exactly the block map, the root first, each block once, the others in CID order |
| Syntax.PathSplitsOnce | crates/psky-repo/src/syntax.rs:6-21 | an accepted path has exactly one slash |
| Syntax.PathIsPlain | crates/psky-repo/src/syntax.rs:6-50 | an accepted path is short, its collection is dotted, and its record key is plain and no dot segment |
| Syntax.IdentityDidAccepted | crates/psky-credentials/src/lib.rs:99-148 | every identity that validates has a DID that the repository accepts |
| Tid.Revision | crates/psky-credentials/src/lib.rs:950-959 | the digit loop writes the 13 base-32 digits of the saturated product |
| Tid.RevisionIsTid | crates/psky-credentials/src/lib.rs:950-959 | for every number of seconds the text is a TID that `metadata` accepts, and it decodes to the saturated product |
| Tid.RevisionOrder | crates/psky-credentials/src/lib.rs:950-959 | text order is numeric order, strict exactly below saturation |
| Tid.BindingMetadataAccepted | crates/psky-credentials/src/lib.rs:345-401 | a valid identity and any clock reading pass `metadata` |
| Binding.IdentityPlain | crates/psky-credentials/src/lib.rs:99-148 | the DIDs of a valid identity have at most 300 bytes, all printable and none that JSON escapes |
| Binding.StandardIsLawful | crates/psky-credentials/src/lib.rs:345-401 | the store's assumptions on identities and empty repositories hold of the real check, revision and builder |
| Binding.BindsExactly | crates/psky-credentials/src/lib.rs:345-401 | binding a new account fails exactly on identity, FID, authority or key, never on metadata, and records the root of an empty repository that verifies under its key |
| Binding.EnabledSettingsBind | crates/psky/src/settings.rs:198-279 | settings that can be saved with the service enabled can always be bound: the first login for their FID creates the account that they name |
| CredentialStore.Store.SetEvidence | crates/psky-credentials/src/lib.rs:313-321 | stores evidence of allowed size for an enabled account only |
| CredentialStore.Store.BindVerified | crates/psky-credentials/src/lib.rs:345-401 | creates or re-enables the account; another FID, another identity or a changed authority of an enabled account is a conflict |
| CredentialStore.Store.InvalidateAuthority | crates/psky-credentials/src/lib.rs:404-418 | disables the account and deletes passwords, sessions and evidence together |
| CredentialStore.Store.IssuePassword | crates/psky-credentials/src/lib.rs:421-457 | adds one password under a new name, at most sixteen |
| CredentialStore.Store.RevokePassword | crates/psky-credentials/src/lib.rs:475-485 | removes the password and the sessions that it opened |
| CredentialStore.Store.VerifyPassword | crates/psky-credentials/src/lib.rs:685-719 | the scan of sixteen rows proves a login exactly when some row of the whole table does |
| CredentialStore.Store.Authenticate | crates/psky-credentials/src/lib.rs:494-518 | drops expired sessions and opens one, at most 64; an error changes nothing |
| CredentialStore.Store.ValidateBearer | crates/psky-credentials/src/lib.rs:521-547 | accepts a token exactly when it verifies at one clock reading and its session is live at the next and, for a refresh token, current |
| CredentialStore.Store.RefreshSession | crates/psky-credentials/src/lib.rs:549-570 | replaces the current refresh identifier and keeps the expiry; an error changes nothing |
| CredentialStore.Store.DeleteSession | crates/psky-credentials/src/lib.rs:573-584 | removes the session of a valid refresh token |
| CredentialRuns.TablesStaySound | crates/psky-credentials/src/lib.rs:313-584 | every operation keeps: sessions name existing passwords, at most 16 unique passwords and 64 sessions, nothing kept for an unbound or disabled account; an operation that fails changes nothing |
| CredentialRuns.TablesAlwaysSound | crates/psky-credentials/src/lib.rs:256-261 | the same over every run |
| CredentialRuns.BindingIsForever | crates/psky-credentials/src/lib.rs:345-401 | FID, identity, key and repository never change once bound |
| CredentialRuns.RotationRetires | crates/psky-credentials/src/lib.rs:549-570 | a rotation leaves no session with the identifier that it consumed |
| CredentialRuns.RetiredForever | crates/psky-credentials/src/lib.rs:930-948 | an issued identifier that is not current never becomes current again |
| CredentialRuns.NoReplay | crates/psky-credentials/src/lib.rs:549-570 | a refresh token is consumed at most once: after its rotation nothing accepts any copy of it, whatever operations follow |
| CredentialRuns.EndedForever | crates/psky-credentials/src/lib.rs:404-418 | a session that is gone never returns |
| CredentialRuns.AlwaysSound | crates/psky-credentials/src/lib.rs:509-568 | over every run with fresh identifiers, tables, identifiers and all issued tokens stay sound |
| CredentialRuns.ChainLifetime | crates/psky-credentials/src/lib.rs:823-851 | all refresh tokens of one session expire together, seven days after its login, and no token of it outlives that |
| CredentialRuns.IssuedTokenWorks | crates/psky-credentials/src/lib.rs:873-948 | from issue to expiry an issued token verifies, and is accepted if and only if its session lives and, for a refresh token, it is the current one, at whatever second reading of the clock |
| CredentialRuns.IssuedPasswordLogsIn | crates/psky-credentials/src/lib.rs:421-457 | an issued password logs in under handle and DID and proves its own name |
| CredentialRuns.RevokedCannotLogIn | crates/psky-credentials/src/lib.rs:475-485 | after a revocation a login succeeds exactly when another password proves it |
| CredentialRuns.RevocationIsExact | crates/psky-credentials/src/lib.rs:475-485 | a revocation ends the tokens of the password's sessions and no others |
| CredentialRuns.KindsAreDisjoint | crates/psky-credentials/src/lib.rs:873-928 | no token passes as access and as refresh token |
| CredentialTokens.BearerExactly | crates/psky-credentials/src/lib.rs:873-948 | a bearer is accepted if and only if it is genuine (signature, header, scope, subject, audience, lifetime, identifiers), issued and unexpired, and backed by a live session of the enabled account; it is called expired exactly when only its time is over |
| CredentialTokens.ExpiredRefused | crates/psky-credentials/src/lib.rs:924-926 | from its expiry on an issued token is refused |
| CredentialTokens.LoginTokens | crates/psky-credentials/src/lib.rs:494-518 | the access token that a login returns is accepted for exactly thirty minutes and the refresh token for exactly seven days, each as its own kind only and for the new session |
| CredentialTokens.RotationTokens | crates/psky-credentials/src/lib.rs:549-570 | the tokens that a rotation returns are for the same session and up to the same end, the access token for at most thirty minutes |
| CredentialTokens.LogoutIsExact | crates/psky-credentials/src/lib.rs:573-584 | a logout ends its session's tokens and no others |
| CredentialTokens.RotationIsExact | crates/psky-credentials/src/lib.rs:549-570 | a rotation refuses the session's other refresh tokens and changes nothing for any other token |
| CredentialTokens.InvalidationIsTotal | crates/psky-credentials/src/lib.rs:404-418 | after an invalidation no token is accepted and no password logs in |
| CredentialTokens.LoginExactly | crates/psky-credentials/src/lib.rs:494-518 | a plausible login succeeds exactly for the enabled account's handle or DID with a password that some row proves and room among the unexpired sessions; it clears the expired ones and opens one for seven days |
| CredentialTokens.BindExactly | crates/psky-credentials/src/lib.rs:345-401 | each outcome of a binding, exactly, with the account that it leaves |
| CredentialTokens.IssueExactly | crates/psky-credentials/src/lib.rs:421-457 | a password is issued exactly under a valid unused name for an enabled account with fewer than sixteen, and the reply is the secret that its row proves |
| CredentialTokens.EvidenceExactly | crates/psky-credentials/src/lib.rs:313-321 | evidence is stored exactly for an enabled account and within 32 KiB |
| Chain.VerifiedEvidence | crates/psky-farcaster-auth/src/client.rs:226-328 | a check that succeeds leaves well-formed evidence of the block it read, never behind or forked from what was expected |
| AuthorityProof.WordExactly | crates/psky-farcaster-auth/src/client.rs:467-476 | a 32-byte word reads as its big-endian number exactly if that fits 64 bits |
| AuthorityProof.VerifiedExactly | crates/psky-farcaster-auth/src/client.rs:226-328 | a check succeeds if and only if the raw answers give a recent finalized Optimism block that advances the evidence, a good signature of the wallet's kind, a custody address, and the signer's permission |
| AuthorityProof.RecheckedExactly | crates/psky-farcaster-auth/src/client.rs:204-224 | a recheck succeeds if and only if the proof still says the same, the evidence is well-formed and not from the future, and the raw answers prove it anew |
| AuthorityProof.RevokedExactly | crates/psky-farcaster-auth/src/client.rs:204-328 | a recheck of sound evidence revokes it if and only if, at such a block, the raw answers deny the signature, or with it good the custody, or with both good the permission |
| Chain.RevocationNeedsAdvance | crates/psky-farcaster-auth/src/client.rs:204-259 | a verdict that revokes comes only from a finalized block that is not behind the evidence and does not fork from it |
| Chain.RevocationCause | crates/psky-farcaster-auth/src/client.rs:204-328 | a recheck revokes exactly when at such a block the signature, the custody on record or the signer's permission is denied, in that order |
| Settings.ConfigStore.ReplaceWithSync | crates/psky/src/settings.rs:397-422 | the document, the file and the answer after a save, wherever it stops |
| Settings.SavedExactlyWhenRevisionMoved | crates/psky/src/settings.rs:397-422 | memory and file agree after every save, and the save took effect exactly when the revision moved by one |
| Settings.RefusedExactly | crates/psky/src/settings.rs:397-422 | each error of a save, exactly |
| Settings.OriginExactly | crates/psky/src/settings.rs:226-252 | a configured URL is an origin exactly if it is short and HTTPS, or HTTP on this machine, with nothing but a host and perhaps a port |
| Settings.OriginsAccepted | crates/psky/src/settings.rs:226-279 | an origin gives a valid identity exactly when it is HTTP on `localhost` with a port other than zero, or HTTPS on a public host name without a port |
| RateLimit.Limiter.Limit | crates/psky/src/account.rs:587-594 | prunes the list in place, and accepts and records the time exactly when fewer than the capacity are left |
| RateLimit.RunExact | crates/psky/src/account.rs:587-594 | under any clock, pruning the list leaves exactly the accepted requests that no reading since has put out of the window |
| RateLimit.JudgedExactly | crates/psky/src/account.rs:587-594 | after any run under any clock, a request is let through exactly when those within the window, less those forgotten, are fewer than the capacity; it is judged wrongly exactly when the forgotten ones make the difference |
| RateLimit.LatestReadingIsRight | crates/psky/src/account.rs:587-594 | a request whose clock reading is the latest so far is judged rightly |
| RateLimit.NeverTooMany | crates/psky/src/account.rs:587-594 | from the empty list on, under a clock that does not go back, no window ever holds more accepted requests than the capacity |
| RateLimit.ClockSetBack | crates/psky/src/account.rs:587-594 | for every window and every capacity above one, a run whose last request is let through on top of a full window |
| RateLimit.ClockMatters | crates/psky/src/account.rs:587-594 | every request of every run under every clock is judged rightly if and only if the capacity is at most one |
| AccountService.Service.Authority | crates/psky/src/account.rs:213-258 | new core and answer of the authority check, for every answer, timeout and failed write |
| AccountService.Service.Relay | crates/psky/src/account.rs:326-349 | the relay part of a poll: the proof is stored before any check |
| AccountService.Service.Verify | crates/psky/src/account.rs:350-382 | the second part of a poll, from the proof to the verdict |
| AccountService.Service.Bind | crates/psky/src/account.rs:384-402 | binding, evidence, grant and completion, each only if the one before succeeded |
| AccountService.Service.Execute | crates/psky/src/account.rs:277-465 | one accepted request: expired logins and grants go first, then the action |
| AccountService.Service.ApplyConfiguration | crates/psky/src/account.rs:98-105 | changed settings drop pending logins, grants and the cache |
| AccountRuns.AuthorityDoes | crates/psky/src/account.rs:213-258 | an authority check changes only its cache, renews the evidence from an advanced block, or revokes on one |
| AccountRuns.AuthorityKeeps | crates/psky/src/account.rs:213-258 | the check keeps the core sound wherever it is cut off |
| AccountRuns.VerifyKeeps | crates/psky/src/account.rs:350-402 | so does a poll with a proof |
| AccountRuns.IssueDoes | crates/psky/src/account.rs:410-420 | a password is issued only if the caller's own grant is live before and after the authority check |
| AccountRuns.ActKeeps | crates/psky/src/account.rs:277-465 | every action, with timeouts and failed writes anywhere, keeps: settings name the bound account, tables sound, evidence fits the account, at most eight logins, grants only for a bound enabled account |
| AccountEvidence.ActFollows | crates/psky/src/account.rs:236-257 | no answer from a lower or forked block disables the account, replaces its evidence or deletes passwords or sessions; these go otherwise only by the owner's revocation or logout, or by expiry; the account stays the same one |
| NodeRuns.SaveKeeps | crates/psky/src/server.rs:464-520 | a configuration save keeps memory, document and binding in agreement, also when the directory sync fails |
| NodeRuns.SaveExactly | crates/psky/src/server.rs:464-520 | a save takes effect exactly under its conditions on account, binding, revision, settings and file, and changed account settings then drop pending logins, grants and the cache |
| Crashes.VerifyCut | crates/psky/src/account.rs:376-393 | a poll with a proof may be cut before its writes, after the old authority lost its credentials, after the binding, or not at all |
| Crashes.ActCutFits | crates/psky/src/account.rs:277-465 | wherever a crash cuts an action, the tables on disk are sound and agree with the settings, and what was lost was lost to a block that advanced |
| NodeRuns.OpenSucceeds | crates/psky/src/account.rs:110-140 | wherever a crash cuts an action of a sound node, the node starts again from what is on disk |
| NodeRuns.OpenExactly | crates/psky/src/account.rs:110-140 | a node starts exactly on valid settings and a sound store whose account they name, and then without logins, grants or a recent check |
| NodeRuns.RunKeeps | crates/psky/src/account.rs:77-123 | over every run of actions, saves and crashes the node starts again and stays sound |
| NodeRuns.BindingAgreement | crates/psky/src/account.rs:77-123 | from a new node on, settings in memory and on disk both name the bound FID and identity; at most eight logins are pending; grants imply a bound enabled account |
| NodeRuns.BoundForever | crates/psky/src/account.rs:383-386 | no run changes the FID, identity, key or repository of the bound account |
| NodeRuns.EvidenceStep | crates/psky/src/account.rs:236-257 | evidence is replaced or removed only with a finalized block that advances it |
| NodeRuns.NothingWithoutEvidence | crates/psky/src/account.rs:376-395 | at any point of any run, without evidence there is no password, session or grant |
| LoginEvidence.PollEvidence | crates/psky/src/account.rs:350-395 | a poll with a proof stores its evidence, takes held evidence away and leaves none, or leaves it alone, each exactly under its own conditions on the check, the authority, the writes and the document |
| LoginEvidence.VerifyCutEvidence | crates/psky/src/account.rs:376-395 | the same for a poll that a crash cuts after any number of its store operations |
| LoginEvidence.ActCutEvidence | crates/psky/src/account.rs:277-465 | the same for whole actions; without evidence, nothing but a completed login makes any |
| RevokedEvidence.OtherLosesExactly | crates/psky/src/account.rs:213-258 | any other action takes evidence away exactly when it reaches its authority check, the check revokes, and the crash, if any, comes later |
| EvidenceMark.EvidenceExactly | crates/psky/src/account.rs:236-395 | over events of a node, evidence appears exactly when a login completes, and goes exactly when the authority check revokes it or a login's poll takes it away without completing |
| EvidenceMark.OffExactly | crates/psky/src/account.rs:366-375 | one event takes the evidence below the highest block since the last revocation, or off it, exactly when a login completes below that mark with no evidence held |
| EvidenceMark.MonotoneExactly | crates/psky/src/account.rs:236-395 | over any run, crashes and saves included, the evidence is ever below or off that mark if and only if some event is such a login |
| EvidenceMark.MonotoneFromNewNode | crates/psky/src/account.rs:236-395 | the same from a new node on |
| EvidenceMark.EvidenceNeverGoesBack | crates/psky/src/account.rs:236-395 | without a revocation and such a login, evidence at the end of a run is not behind what it was, and an equal height keeps the hash up to ASCII case, whether or not evidence was held all the way |
| EvidenceMark.HeightCanGoBack | crates/psky/src/account.rs:376-395 | a run of two polls of two pending logins from a sound node, after which the stored height is lower |
| HeightExample.HeightGoesBack | crates/psky/src/account.rs:282-403 | from a new node, three logins are started and polled, the second failing to bind: evidence of block 10, then of a lower block |
| LoginPolling.ActPending | crates/psky/src/account.rs:326-403 | a pending login only moves forward, and only the poll that completes it adds a grant |
| LoginPolling.RelayNotRead | crates/psky/src/account.rs:339-348 | once a proof is stored the relay's answer makes no difference to the poll |
| LoginPolling.ProofIsRetained | crates/psky/src/account.rs:339-348 | a delivered proof stays whatever becomes of the checks after it |
| LoginPolling.SettledForever | crates/psky/src/account.rs:326-403 | that stays so over every run |
| LoginPolling.AtMostOneGrant | crates/psky/src/account.rs:395-402 | each login is turned into at most one grant over every run |
| LoginPolling.GrantLasts | crates/psky/src/account.rs:395-402 | the token of a completed login is good for exactly ten minutes, as the reply says, and the reply names the account that was bound |
| ActionSuccess.CheckSucceeds | crates/psky/src/account.rs:213-258 | the authority check succeeds exactly while the service is enabled and one succeeded less than thirty seconds ago or the account's own evidence is proven anew and stored |
| ActionSuccess.FailedCheckForgets | crates/psky/src/account.rs:248-256 | a check that fails on the chain's word is not remembered as recent |
| ActionSuccess.SessionSucceeds | crates/psky/src/account.rs:435-439 | reading a session takes an accepted access token and the check |
| ActionSuccess.RefreshSucceeds | crates/psky/src/account.rs:440-446 | a refresh takes a refresh token that is accepted before the check and still is after it |
| ActionSuccess.LogoutSucceeds | crates/psky/src/account.rs:447-450 | a logout takes an accepted refresh token and no check |
| ActionSuccess.LoginSucceeds | crates/psky/src/account.rs:427-434 | a password login takes fewer than twenty attempts in the minute, a password that proves itself before and after the check, and room for a session |
| ActionSuccess.GrantsNeeded | crates/psky/src/account.rs:404-426 | managing passwords takes a live grant of one's own, and for issuing and listing again after the check |
| ActionSuccess.StartSucceeds | crates/psky/src/account.rs:286-325 | starting a login takes room, pace, an identity and the relay's channel, and adds exactly that login for five minutes |
| ActionSuccess.RelayReadExactly | crates/psky/src/account.rs:326-348 | the relay's answer matters to a poll exactly when the login is pending under its token, not completed, not polled within two seconds, and without a proof |
| ActionSuccess.SecondPollWaits | crates/psky/src/account.rs:335-338 | a poll within two seconds of one that got anywhere is told to wait |
| ActionSuccess.PollDropsExactly | crates/psky/src/account.rs:354-365 | a login is dropped exactly when its proof checks out too late or for another FID |
| ActionSuccess.MintsExactly | crates/psky/src/account.rs:349-402 | a poll mints a grant exactly when it stores its evidence |
| ActionSuccess.GrantIsProven | crates/psky/src/account.rs:349-402 | a grant rests on a proof for its own challenge and on raw answers that prove it signed by the registered owner of the allowed FID |
| ActionSuccess.CompletionIsCheck | crates/psky/src/account.rs:391-394 | a completed login counts as an authority check at the reading taken after its evidence was stored |
| ActionSuccess.NothingExpired | crates/psky/src/account.rs:281-284 | no expired login or grant outlives an action, and none is lost to expiry before its time |
| LoginPolling.SameCompletion | crates/psky/src/account.rs:332-334 | repeated polls return the same completion and change nothing |
| ActionSteps.ActTables | crates/psky/src/account.rs:277-465 | what an action leaves in the tables is what its sequence of store operations leaves |
| StoreRefinement.NodeRunIsStoreRun | crates/psky/src/account.rs:277-465 | every run of a node is a run of its credential store with fresh identifiers |
| StoreRefinement.NodeNoReplay | crates/psky/src/account.rs:440-446 | a node rotates each refresh token at most once, across crashes and saves |
| Scheduler.Console.Start | crates/psky/src/server.rs:571-618 | starts the one action, or refuses with the exact reason and changes nothing |
| Scheduler.Console.Finish | crates/psky/src/server.rs:162-217 | records the report or the failure, frees the slot and notifies every waiting drainer |
| Scheduler.Console.DrainPass | crates/psky/src/server.rs:139-160 | one pass of the drain loop: returns exactly when nothing is active, else queues |
| Scheduler.Console.UpdateConfig | crates/psky/src/server.rs:453-530 | saves and clears the preflight report, or refuses |
| Scheduler.StartExactly | crates/psky/src/server.rs:571-618 | an action starts exactly when none runs, no shutdown began and its setup is ready, with the next number and the current revision |
| Scheduler.FinishExactly | crates/psky/src/server.rs:162-217 | the finished action heads the history as succeeded or with its error, the rest of it stays up to 32, a preflight's failure clears its report, and every drainer is woken |
| Scheduler.SaveExactly | crates/psky/src/server.rs:453-530 | a save takes effect exactly when none runs, no shutdown began and the document was published, and then clears the preflight report |
| Scheduler.AlwaysSound | crates/psky/src/server.rs:139-217 | every event keeps: at most one action; a stored preflight report has the current revision; completed ids strictly decrease and at most 32 are kept; no drainer waits once the action is gone |
| Scheduler.ReachableSound | crates/psky/src/server.rs:139-217 | so all this holds of every state that a new console can reach |
| Scheduler.DrainIsFinal | crates/psky/src/server.rs:435-522 | after any drain returned no action starts and no setting changes |
| Scheduler.DrainCompletes | crates/psky/src/server.rs:139-217 | the end of the action lets every waiting drain return |
| Health.ParseShards | crates/psky-hypersnap/src/lib.rs:749-771 | accepts exactly lists of at most 256 well-formed, in-range, pairwise distinct shards |
| Health.FreshExactly | crates/psky-hypersnap/src/lib.rs:269-286 | a parsed node is fresh exactly when every shard 0 to N is reported with a block and a delay within the threshold |
| Health.LaggingExactly | crates/psky-hypersnap/src/lib.rs:269-278 | a node lags exactly when some reported shard is delayed beyond the threshold |
| Health.CountPeers | crates/psky-hypersnap/src/lib.rs:496-502 | the counts are the multiplicities, and their total is the number of known peers |
| Health.Assess | crates/psky-hypersnap/src/lib.rs:488-522 | `peer_unique` is exactly: false if another node shares the peer, true if all are known and none does, else undetermined; health follows from it |
| Health.HealthyMeansDistinct | crates/psky-hypersnap/src/lib.rs:503-522 | a healthy report has pairwise distinct peers, as many as endpoints |
| Health.ParseAuthority | crates/psky-hypersnap/src/lib.rs:831-870 | the reported custody is the target of the first custody event at the latest position; one malformed event spoils the answer |
| Journal.Journal.Push | crates/psky/src/journal.rs:63-75 | the ring buffer stays the last 200 events of the unbounded log |
| Journal.Journal.Page | crates/psky/src/journal.rs:78-94 | the page of that ring buffer |
| Journal.PageIsTheLog | crates/psky/src/journal.rs:78-94 | a page is a run of consecutive log events right after the cursor, unless it says `truncated` |
| Journal.PageAccounts | crates/psky/src/journal.rs:78-94 | a page shows or reports as dropped every event that its cursor passes, exactly when its size is not zero or there is nothing to show |
| Journal.ReaderMissesOnlyEvicted | crates/psky/src/journal.rs:63-94 | a reader that follows `next_cursor`, with any pushes between, gets each event at most once in order and misses only evicted ones, reported by that page |
| Journal.ReaderFromStart | crates/psky/src/journal.rs:63-94 | the same from an empty journal on |

## Left out

- Digests: taken as injective on all inputs, so of unbounded length; the DAG-CBOR encoder is total and
  invertible, and a JSON object lists its members in key order.
- Mst.BuildEntries: the source's one loop in `subtree` is two methods here, with the body of the loop
  in `Mst.BuildEntry`; the `BTreeMap` arguments are maps with their ascending listing.
- Mst.BuildSubtree: `u8` and `usize` widths of prefix lengths and layers are not bounded.
- Repository.Verify: the commit, MST root and signature that a `Repository` value caches beside its
  blocks are not part of the check, as in the source.
- Syntax.IdentityDidAccepted: URL parsing and origin serialization are parameters;
  `Settings.OriginsAccepted` assumes that a serialized origin parses to itself.
- CredentialStore.Store.IssuePassword: the listing of passwords, its order, and the check of the stored
  salt's length are not modelled; password ids and JWT ids are inputs assumed fresh.
- CredentialStore.Store.Authenticate: SQLite's own failures are not modelled at this level; the account
  service models them as writes that fail. Adding seven days to the clock is not bounded by 64 bits.
- AccountService.Service.Execute: what replies contain beyond success or failure; reading preferences,
  which is `Session` with another body; the event list that the caller of `execute` keeps for the
  management API; constructing the relay client fails only when the settings give no identity.
- AccountService.Service.Start: the QR code, the channel's URLs and their failures.
- NodeRuns.SaveKeeps: the checks of whole settings are parameters; the account part is `Settings.ValidAccount`.
- NodeRuns.RunKeeps: store transactions and the rename of the settings file are atomic and durable, so
  a crash during a save is a crash before or after it; one process owns the directory.
- Chain.VerifiedEvidence: ECDSA recovery, ABI encoding, JSON-RPC and quantities appear as their
  results; SIWE text and its checks are one oracle for the parsed proof.
- Scheduler.Console.Finish: the journal lines written by the console, the actions' work itself, and the
  panic of a supervisor.
- Health.ParseShards: sorting by shard id, and the version and peer text checks around the shard loop.
- Journal.Journal.Push: 64-bit overflow of the sequence number, as of operation ids.
- HTTP routing, headers, CORS, host and origin checks, QR rendering, file permissions and links,
  temporary files, JSON size limits, numeric ranges of the settings, storage allocation parsing, the
  fixture lab and the user interface are plumbing or single-branch checks.
