# etcdircd, modelled and verified in Dafny

etcdircd is an IRC server whose shared state is a set of etcd records that every server
changes through serializable transactions. This project models its four hard parts and
proves what holds in every run of them. `dafny verify dfyconfig.toml` checks everything.

1. **The membership protocol.** Who is on which channel is written down twice: in the user's
   record and in a nick list per channel and server lease. `Commands` gives, for each
   transaction closure of `etcd_client.go`, the writes it stages and the captured variables it
   leaves behind; `Transactions` is the same closures as code over an STM object with a write
   set, proved equal to them; `Protocol` is the state machine (commands, registration,
   compare-and-delete of empty lists, lease grant and expiry, operator records), with one
   invariant that `Membership` and `Runs` carry through every step. `Operators`, `UserModes`,
   `LeaseHypothesis`, `Retry` and `Stale` prove what follows from it, or exactly when it fails;
   `Scenarios` has the runs in which it does. `Effects` and `Verdicts` say, over the records alone,
   what every command does to the store and what it answers.
2. **Watchers.** `Watchers`, `Parts`, `Sight`, `Delivery` and `PartDelivery` take the revision log
   the commands write and prove what a connection receives and what a client is shown.
3. **The key-encoding layer.** `Bytes`, `Hmac`, `KeyCodec` and `KeyNames` are the codecs,
   byte by byte; `KeyStore`, `KeyWatch`, `KeyClient` and `EncodedStore` prove that the
   encrypted store and its watches cannot be told from the plain ones.
4. **Mode strings and sessions.** `Modes` interprets mode strings over shared arrays, `ModeStrings` says what they mean;
   `Session` interleaves the session loop with its callers.

`Stack` and `StackRuns` put the layers together: typed records, printed as bytes, changed by
compare-and-put transactions, through the encrypted store, over whole runs; `ClusterWatch` does
the same for watches.

Code that updates things in place is modelled in place (classes, arrays, loops) and each such
method is proved against a function about which the theorems are stated. Concurrent code is a
state machine whose runs are arbitrary interleavings.

## Main results

- `Runs.MembershipAgrees`: in every run, the number of times a channel occurs in a user's record
  equals the number of that user's entries in the list of its own lease, and is zero in every
  other list. Joins are not deduplicated, so everything is counted with multisets.
- `LeaseHypothesis`: Join, Part and Quit act on the current session's lease; agreement survives
  **if and only if** that is the lease in the record (or there is nothing to lose track of).
- `Retry.ValidatedCommitIsAtomic`: an attempt on an old snapshot whose reads (exactly those the
  closure makes) validate has exactly the effect of the atomic step, which is what lets runs be
  sequences of steps.
- `Retry.ReplyAfterRetries`: the reply after aborted attempts is the committed attempt's verdict
  **if and only if** the stores they saw leave no stale captured variable to show. `Scenarios` has
  a run from the empty store for each command that can show one; `Stale.KickNeverStale` proves
  that kick cannot.
- `Effects`: for each command the whole next state in terms of records, lists and messages, and
  exactly when it is the same state; `Verdicts`: for each command that can commit, the reply as a
  condition on the records.
- `Operators.OrphanedForever` and `OrphanSilent`: a channel without an operator stays so forever,
  with a frozen mode, no kicks, a frozen `+t` topic and silence under `+m`.
- `Delivery.NothingLost` and `DeliveredExactly`: over every run, a channel watcher delivers exactly
  the broadcasts since its join, up to its own departure, except PRIVMSGs under its own nick;
  `Delivery.Overheard` goes from one speaker's command to another member's connection.
- `Parts.PruneExactly`: who is shown to whom, and with which channels.
- `PartDelivery.CleansUpExactly`: the watcher cleans up exactly its own server's empty lists.
- `PartDelivery.EveryLossReported` and `Sight.NamesExactly`: over every run the nick-list watcher
  never fails, and it reports exactly the members lost to each expiry, **if and only if** no expiry
  takes anyone the client sees from a channel whose name continues after a `/`; likewise for NAMES.
- `Hmac.CiphertextBytes` and `DecodeExactly`: every byte of an encoded key, and the exact inputs on
  which decoding returns a text, an error or panics.
- `EncodedStore.EncryptionIsTransparent`: for every hash and keystream, every history of requests
  and every watch through the encoded store is one of the plain store.
- `StackRuns.EncryptedRun` and `EncryptedBytesAgree`: any interleaving of attempts, registrations,
  cleanups and expiries on the encrypted store is a run of the protocol, so membership agreement
  holds of the bytes in the cluster; `ClusterWatch.ClusterDelivers`: so does message delivery.
- `Modes.UpdatedExactly`: for every list of mode strings and every capacity, exactly when the
  update flag is right.
- `KeyCodec.RoundTripExactly` and `PrefixExactly`: the exact sets of keys and prefixes for which
  the key encoder is right.
- `Session.ClosedAtMostOnce`, `SessionFresh` and `ReturnLostExactly`: every interleaving of the
  session loop.

## Hypotheses

- A committed transaction is atomic: its reads are validated by mod-revision at commit, it reads
  its own writes, and `Rev` looks at the snapshot (`etcd_client.go:1147-1159`).
- A lease's keys vanish in one revision.
- A command is issued for a registered nick by the server whose current lease is in that record
  (`Protocol.Registered`); the code records `crev` but checks neither. `LeaseHypothesis` proves
  that agreement needs this.
- gob is an injective codec that no empty value decodes from; records are therefore typed values.
- Pinned user modes have no duplicates and none of `a`, `o`, `O` (`Protocol.PinnedOk`).
- The hash has a fixed size of at least one block, and blocks have 1 to 255 bytes
  (`Hmac.Encoder.Valid`); hash and keystream are otherwise arbitrary.
- Names are written in bytes letter by letter and injectively, with `/` standing for itself
  (`KeyNames.Utf8`). Names may contain `/`; what that does to scans and watches is proved.

## Where code and promises part

Each with an input or a run that shows it, and the exact condition.

- `mode.go:111-120`: updateSlice compares the new mode with the old one through an array it has
  been editing. `-m` then `+t` on `ms` reports no update (`Modes.MixedListLosesUpdate`); `-m`, `+t`,
  `+m`, `-t` on a full `m` reports one (`Modes.SpuriousUpdate`); `Modes.UpdatedExactly` says when
  the flag is right, for every list.
- `etcd_client.go:587-1027`: flags captured by the Topic, PRIVMSG and OPER closures survive a retry
  (`Scenarios.StaleTopicReply`, `StalePrivMsgChanReply`, `StalePrivMsgUserReply`, `StaleOperReply`);
  `Retry.ReplyAfterRetries` says when one shows, `Retry.LeftoverExactly` what sets it.
- `etcd_client.go:1137-1138`: a nick-list watcher that outlives its client's record dereferences nil
  (`Scenarios.WatcherMeetsNil`); `Parts.CleanupReportsNobody` says exactly when.
- `etcd_client.go:316-323`, `etcd_client.go:1094-1098`, `key.go:27-42`: the watch and the scan of
  `#a` go by a prefix that `#a/b` shares (`KeyNames.ScanExactly`, `ScanMeetsLonger`). A client on
  `#a` is told that a user of `#a/b` parted from `#a` (`Scenarios.NeighbourParted`) and NAMES shows
  that user (`Scenarios.NeighbourNamed`); `PartDelivery.EveryLossReported` and `Sight.NamesExactly`
  say exactly when.
- `key.go:82-114`: a key with an empty data segment is stored in the clear and cannot be decoded
  (`KeyCodec.RoundTripExactly`). That is the key of any nick that starts with `/`
  (`KeyNames.SlashNickUnreadable`), and of no other name but the empty one (`KeyNames.GoodExactly`).
- `session.go:76-89`: a session returned without error may already be lost
  (`Session.ReturnedMayBeLost`); `Session.ReadLostExactly` and `ReturnLostExactly` say when.

## Model

| member | source | states |
|---|---|---|
| Runs.MembershipAgrees | etcd_client.go:232-278 | in every run from the empty store, for every nick, channel and lease, list entries and record claims agree count for count; other leases' lists have none |
| Runs.RunKeeps | etcd_client.go:1147-1159 | every run of enabled steps keeps the whole invariant: agreement, sole operator, leases and companions of every key, and log replay |
| Runs.StepKeeps | etcd_client.go:37-64 | each kind of step keeps the invariant |
| Runs.CommandKeeps | etcd_client.go:214-1058 | each of the eleven commands keeps the invariant |
| Membership.JoinKeeps | etcd_client.go:232-278 | a join, including a repeated one, adds one claim and one entry and keeps the invariant |
| Membership.PartStages | etcd_client.go:901-925 | a part by a registered client gives up exactly one claim and one entry if it is on the channel, and otherwise stages nothing |
| Membership.KickStages | etcd_client.go:767-808 | if the caller's entry in its own list is an operator's and the target is on the channel, a kick gives up one claim of the target's and its entry in the list of its own lease; otherwise it stages nothing |
| Membership.LeaveKeeps | etcd_client.go:783-808 | giving up one claim and one entry together keeps the invariant and is accepted by etcd |
| Membership.ClaimHasList | etcd_client.go:797-798 | agreement finds, for every claimed channel, an existing list of the user's lease that names it |
| Membership.QuitLoopStages | etcd_client.go:421-442 | with read-your-writes, Quit's loop removes one entry per occurrence of a channel, so a channel joined k times is edited k times |
| Membership.QuitKeeps | etcd_client.go:410-447 | a quit removes the nick from every list and keeps the invariant |
| Membership.QuietOps | etcd_client.go:469-716 | the mode, operator, away, topic and message commands only rewrite existing records and touch no nick, channel list, lease or nick list |
| Membership.UserModeAddsNone | etcd_client.go:523-536 | no list of MODE strings adds a letter outside the user table's add set |
| Effects.JoinEffect | etcd_client.go:232-278 | a join puts the channel at the end of the record and an entry at the end of the list, `Oo` exactly for a new channel, keeps an existing channel record, stores the JOIN and touches nothing else |
| Effects.PartEffect | etcd_client.go:901-925 | if the channel is in the record, one occurrence and one entry go, all other claims and entries stay and the PART is stored; otherwise nothing changes |
| Effects.KickEffect | etcd_client.go:767-808 | if the caller is an operator in its own list and the target is on the channel, the target loses one claim and one entry, all others stay and the KICK is stored; otherwise nothing changes |
| Effects.QuitEffect | etcd_client.go:410-447 | both user keys go, every list keeps exactly the others in order, every channel of the record gets the QUIT, nothing else changes |
| Effects.ChanModeEffect | etcd_client.go:469-499 | an operator's list replaces the mode and nothing else of the channel when the update reports it; otherwise nothing changes |
| Effects.UserModeEffect | etcd_client.go:523-536 | the same for the user's own mode |
| Effects.OperEffect | etcd_client.go:693-717 | if and only if the password fits, the letter of the operator's kind joins the mode, unless it is there |
| Effects.AwayEffect | etcd_client.go:1037-1050 | the message is stored, `a` is there exactly if it is not empty, and no other letter changes |
| Effects.TopicEffect | etcd_client.go:979-1016 | the text is stored and broadcast exactly if the channel exists and is unprotected or the caller its operator |
| Effects.PrivMsgUserEffect | etcd_client.go:588-621 | the text goes to the target's message key; an away target's message to the sender's own; unencrypted text involving an `E` user nowhere |
| Effects.PrivMsgChanEffect | etcd_client.go:650-677 | the text goes to the channel's message key exactly if the channel exists and is unmoderated or the sender its operator |
| Effects.RegisterEffect | etcd_client.go:42-64 | a free nick on a live lease gets its record and an empty message on that lease; otherwise nothing changes |
| Effects.CleanupEffect | etcd_client.go:117-121 | the key goes exactly if its mod-revision is the one seen |
| Effects.AppointEffect | cmd/ircdctl/oper.go:52 | an appointment writes that operator record and nothing else |
| Effects.EntryMeans | etcd_client.go:775-781 | find and the operator tests, in terms of the list |
| Runs.RegisterKeeps | etcd_client.go:42-64 | registration, refused or not, keeps the invariant |
| Runs.CleanupSafe | etcd_client.go:106-122 | whatever happened since the watch event, a compare-and-delete that succeeds removes a list that is still empty, and no list or user changes |
| Runs.CleanupKeeps | etcd_client.go:106-122 | cleanup keeps the invariant |
| Runs.LeaseOwns | etcd_client.go:51-57 | the keys attached to a lease are exactly its users, their message keys and its own lists |
| Runs.ExpiryExact | etcd_client.go:51-57 | expiry removes exactly those; every other record, and every channel and operator record, is untouched, and lost nicks are on no list |
| Runs.ExpiryKeeps | etcd_client.go:239-273 | membership agreement and the rest of the invariant survive the crash of a server |
| Runs.GoneFromLists | etcd_client.go:443-446 | a nick without a record, by quit or expiry, is on no list of any lease |
| Runs.NeverRefused | etcd_client.go:433-445 | in every reachable state every write that keeps a lease hits an existing key and every attached lease is live |
| Runs.ErrorsExactly | etcd_client.go:469-481 | a command ends in a decode error if and only if it must consult a nick list that its lease does not have |
| LeaseHypothesis.JoinNeedsOwnLease | etcd_client.go:216-239 | a join keeps agreement if and only if the session's lease is the record's |
| LeaseHypothesis.PartNeedsOwnLease | etcd_client.go:893-925 | a part keeps agreement if and only if the leases match or the user is not on the channel |
| LeaseHypothesis.QuitNeedsOwnLease | etcd_client.go:416-446 | a quit keeps agreement if and only if the leases match or the user is on no channel |
| Operators.OperatorEntry | etcd_client.go:267-273 | in every reachable state an operator entry is at index 0, has `o` and `O` together, is what find returns, is the only one of its channel over all leases, and nobody has `v` |
| Operators.GrantedAtCreation | etcd_client.go:257-273 | the only step that gives a list an operator is the join that creates the channel |
| Operators.OrphanStep | etcd_client.go:482-497 | one step leaves a channel without operators without operators, its mode fixed and a `+t` topic fixed |
| Operators.OrphanedForever | etcd_client.go:991-1006 | the same for every run |
| Operators.OrphanSilent | etcd_client.go:662-675 | after any run, kicks and, under `+m`, PRIVMSGs leave the store as it is |
| UserModes.StepModes | etcd_client.go:706-715 | `o` or `O` appears in a user's mode only by an Oper with a matching record and password of that kind |
| UserModes.OperModeEarned | etcd_client.go:693-717 | in every run, a user with `o` or `O` logged in at some step and has been registered ever since |
| UserModes.AwayHasMessage | etcd_client.go:1037-1050 | in every run, `a` implies a non-empty away message |
| Records.ChannelNicks.NickNames | channel.go:29-35 | the nicks of the list, in order |
| Records.ChannelNicks.Find | channel.go:37-44 | the first entry of a nick, none exactly when it is absent |
| Records.ChannelNicks.Del | channel.go:46-54 | splices out the first entry of a nick and reports whether there was one |
| Records.NamesDel | channel.go:46-54 | deletion removes one occurrence of the nick from the names and keeps the order of the rest |
| Records.UserValue.InChan | user.go:43-50 | true exactly when the channel is in the record |
| Records.UserValue.Part | user.go:52-60 | removes one occurrence of the channel and nothing else |
| Transactions.JoinBody | etcd_client.go:232-278 | the closure over the STM object stages exactly the join the invariant is proved for, and sets the topic it replies with |
| Transactions.PartBody | etcd_client.go:901-925 | likewise for Part, with its captured flag |
| Transactions.KickBody | etcd_client.go:767-808 | likewise for kick, with its three flags |
| Transactions.KickAs | etcd_client.go:779-808 | kick from the operator test on |
| Transactions.KickOut | etcd_client.go:783-808 | kick after the operator test; the target's list is read only here |
| Transactions.KickFrom | etcd_client.go:794-806 | the writes of kick once the channel is off the target's record |
| Transactions.QuitChannel | etcd_client.go:422-441 | one turn of Quit's loop, which may meet its own earlier edit |
| Transactions.PartOut | etcd_client.go:910-924 | Part once the channel is off the record |
| Transactions.Moderated | etcd_client.go:662-675 | a message to a moderated channel; the list is read only here |
| Transactions.NewEntry | etcd_client.go:259-271 | the entry of a joining user, operator exactly when the channel has no record |
| Transactions.QuitBody | etcd_client.go:410-447 | likewise for Quit: the loop reads its own earlier writes of the same list |
| Transactions.ChanModeBody | etcd_client.go:469-499 | likewise for chanMode, its mode edited through shared arrays |
| Transactions.UserModeBody | etcd_client.go:523-536 | likewise for userMode |
| Transactions.OperBody | etcd_client.go:693-717 | likewise for Oper |
| Transactions.AwayBody | etcd_client.go:1037-1050 | likewise for Away |
| Transactions.TopicBody | etcd_client.go:979-1016 | likewise for Topic |
| Transactions.PrivMsgUserBody | etcd_client.go:588-621 | likewise for a message to a user |
| Transactions.PrivMsgChanBody | etcd_client.go:650-677 | likewise for a message to a channel |
| Retry.RunAttempt | etcd_client.go:1147-1159 | one attempt of any command stages the specified writes, leaves the specified flags, and has read exactly the specified read set |
| Retry.DoStm | etcd_client.go:1147-1159 | after attempts on any stores, the writes and the reads are those of the last store alone and the flags those of the whole history |
| Retry.SameModSameEntry | etcd_client.go:1147-1159 | in one history, an unchanged mod-revision means an unchanged entry, or an absent one |
| Retry.ReadsDetermine | etcd_client.go:1147-1159 | an attempt depends on nothing outside its read set |
| Retry.ValidatedCommitIsAtomic | etcd_client.go:1147-1159 | serializability: a validated attempt on an old snapshot has the effect of the atomic step on the current store |
| Retry.ReplyAfterRetries | etcd_client.go:468-518 | for all eleven commands, the reply differs from the committed attempt's verdict if and only if the aborted stores left a flag set that the last one does not assign; for chanMode, Part, userMode and Join never |
| Verdicts.JoinVerdict | etcd_client.go:284-291 | the topic of an existing channel, none for a new one |
| Verdicts.PartVerdict | etcd_client.go:926-932 | not-on-channel exactly if the channel is not in the record |
| Verdicts.KickReplies | etcd_client.go:809-820 | the caller unlisted, no operator, the target not on the channel, or silence, in that order |
| Verdicts.ChanModeReplies | etcd_client.go:500-517 | no channel, not listed, the current mode for a query, no operator, or the new mode |
| Verdicts.UserModeVerdict | etcd_client.go:537-552 | the new mode and, if anything was asked, the rejected letters |
| Verdicts.OperVerdict | etcd_client.go:718-724 | operator exactly if the record exists with that password |
| Verdicts.AwayVerdict | etcd_client.go:1051-1057 | no longer away for an empty message, away for any other |
| Verdicts.TopicReplies | etcd_client.go:1017-1032 | no channel, the topic for a query, not listed, no operator, or silence |
| Verdicts.PrivMsgUserReplies | etcd_client.go:622-636 | no such nick, no text for refused unencrypted text unless the target is away, or silence |
| Verdicts.PrivMsgChanReplies | etcd_client.go:678-687 | no channel, not listed or no operator of a moderated one, or silence |
| Retry.ChanModeExact | etcd_client.go:487-511 | chanMode's reply does not depend on stale flags |
| Retry.TopicExact | etcd_client.go:979-1031 | Topic's reply is stale exactly when an unprotected topic is set after an attempt left a refusal |
| Retry.KickExact | etcd_client.go:767-820 | kick's reply is stale exactly when a non-operator meets a leftover userNotOnChan |
| Retry.PrivMsgUserExact | etcd_client.go:588-636 | a stale badOtr shows exactly when the target is away |
| Retry.PrivMsgChanExact | etcd_client.go:650-687 | a stale noSend shows exactly when the channel is no longer moderated |
| Retry.LeftoverExactly | etcd_client.go:587-1031 | for any aborted attempts, a captured flag is left set exactly when the last of the stores on which the closure assigns it makes it true |
| Stale.KickNeverStale | etcd_client.go:765-820 | kick never shows a stale flag: while a client waits for its own command, others cannot take its operator entry, so the retry assigns the flag again |
| Stale.HeadStays | etcd_client.go:779-781 | an operator heads its list through every run in which it does nothing itself and its lease lives |
| Stale.OthersCannotKick | etcd_client.go:775-781 | nobody but the channel's sole operator can kick |
| Scenarios.StaleTopicReply | etcd_client.go:977-1027 | a run from the empty store in which an attempt loses its commit, the retry sets the topic and the reply is a refusal |
| Scenarios.StalePrivMsgChanReply | etcd_client.go:649-686 | the same for a message that is stored and reported as not sent |
| Scenarios.StalePrivMsgUserReply | etcd_client.go:587-635 | the same for a message to a user who has gone away |
| Scenarios.StaleOperReply | etcd_client.go:691-724 | the same for a password that no longer matches, answered as a login |
| Scenarios.WatcherMeetsNil | etcd_client.go:1131-1138 | register, join, quit, cleanup: a run in which the client's own watcher looks up a record that is gone |
| Scenarios.NeighbourParted | etcd_client.go:124-152 | a run in which a user of `#a/b` loses its session and the client on `#a` is told that it parted from `#a`, which nobody left |
| Scenarios.NeighbourNamed | etcd_client.go:1094-1110 | a run in which NAMES of `#a` shows a user who is only on `#a/b` |
| Watchers.Connection.MonitorMsg | etcd_client.go:157-202 | for any responses: the decodable messages in order, up to and including the first item that ends the watch, minus own PRIVMSGs, or up to a send that fails; the left channel's watches are cancelled |
| Watchers.Connection.HandleResponse | etcd_client.go:158-200 | the same for one response |
| Watchers.Connection.HandleEvent | etcd_client.go:163-198 | one event: lease loss, undecodable value, own message, failed send, own PART or KICK, and the unchecked dereferences |
| Delivery.StepLog | etcd_client.go:276 | a step adds at most one revision, which holds exactly what the step broadcasts to the channel |
| Delivery.WatchIsBroadcasts | etcd_client.go:301-315 | a watch from the next revision sees every broadcast of any later run, once, in order |
| Delivery.NothingLost | etcd_client.go:279-315 | over any run after the join commit, the watcher never fails: it delivers every broadcast up to its own PART or KICK, minus its own PRIVMSGs, and stops exactly there or at a send that fails |
| Delivery.DeliveredExactly | etcd_client.go:157-202 | over any run, of the broadcasts handled every one goes out as often as it was made, a PRIVMSG under the client's own nick never; the watch is left exactly at the first PART by that nick or KICK of it |
| Delivery.Follow | etcd_client.go:157-202 | the same down to what the method writes on the connection, in order |
| Delivery.Overheard | etcd_client.go:650-677 | what one client says on a channel where it may speak is written to another member's connection that has handled everything |
| Parts.PruneInvisible | user.go:70-94 | the loops compute what a viewer may see: an invisible user only through shared channels, unless the viewer is an operator |
| Parts.VisibleExactly | user.go:78-91 | one user: shown whole, with the common channels, or not at all |
| Parts.PruneExactly | user.go:70-94 | a user is shown exactly if the viewer has `O`, or the user no `i`, or the viewer `o` on the same server, or some channel is in both records; of a hidden user exactly the common channels are shown, in order |
| Parts.PruneKeepsSharers | user.go:70-94 | nobody on a channel of the viewer's is dropped, reordered or renamed |
| Parts.UsersFromNicks | etcd_client.go:1113-1145 | one record per nick, then the viewer's filter; a missing or undecodable record is reported |
| Parts.SendParts | etcd_client.go:138-155 | one PART per visible user, in order, up to a send that fails, and nothing when the lookup fails |
| Parts.MemberHasRecord | etcd_client.go:1131-1144 | every entry of every list names a registered user that claims the channel |
| Parts.SharersAllVisible | etcd_client.go:1131-1145 | for a viewer on the channel, looking up its members misses no record and prunes nobody |
| Parts.ExpiryReportsEveryone | etcd_client.go:124-132 | when a lease expires, a client on the channel one revision earlier gets exactly one PART per entry of the deleted list, in order, whatever happened since |
| Parts.CleanupReportsNobody | etcd_client.go:106-132 | the deletion of a cleaned-up list is logged and reports nobody; the lookup meets nil exactly when the watcher's own record is gone |
| Parts.MonitorPart | etcd_client.go:95-136 | for any events: the compare-and-deletes issued and the PARTs sent, in order, and exactly where and with what it stops early |
| Parts.HandleNickEvent | etcd_client.go:105-133 | one event: cleanup of an own empty list, PARTs for a deleted one as far as the connection takes them |
| Parts.IssuedIsEnabled | etcd_client.go:113-121 | a compare-and-delete issued for a logged event is a cleanup step allowed in every later state |
| Sight.Lookup | etcd_client.go:1113-1145 | a lookup of registered nicks by a registered viewer misses no record and shows those it sees, in order, under their own names |
| Sight.SeenByExactly | user.go:70-94 | seeing, with every test written out |
| Sight.NamesComplete | etcd_client.go:1094-1111 | at the current revision NAMES shows everyone the viewer sees, in the order of the scanned lists, once per channel of the record under the scanned prefix |
| Sight.NamesExactly | etcd_client.go:1094-1111 | to a client on the channel NAMES shows everybody as often as its record has the channel, if and only if nobody it sees is on a channel whose name continues after a `/` |
| PartDelivery.StepLists | etcd_client.go:316-327 | a revision changes at most one list of a channel, deletes lists only by expiry or, when empty, by cleanup, and by expiry exactly those of the lease |
| PartDelivery.EventReported | etcd_client.go:124-132 | the event of any list under the watched prefix never fails the lookup and sends one PART per member the client sees |
| PartDelivery.EveryLossReported | etcd_client.go:95-155 | over any run while the client is on the channel, whatever the prefix watch delivers, no lookup fails, and what is sent is exactly the members each expiry took, in order, if and only if no expiry takes anyone the client sees from a channel whose name continues after a `/` |
| PartDelivery.PlainNamesUndisturbed | key.go:36-42 | it is enough that no channel is stored whose name continues that of the watched one |
| PartDelivery.Listen | etcd_client.go:95-136 | on such a run the watcher sends those PARTs as far as its connection takes them, and stops early for no other reason |
| PartDelivery.CleansUpExactly | etcd_client.go:106-122 | over any log, whatever the watch delivers, a compare-and-delete is issued for a key and revision if and only if that revision stored an empty list there on the server's own lease |
| Modes.IndexByte | mode.go:60 | the first occurrence, or -1 exactly when absent |
| Modes.AddMode | mode.go:62-67 | append: in place while the array has room, else on a copy, as the sharing machine says |
| Modes.DelMode | mode.go:69-75 | deletion inside the shared array, as the sharing machine says |
| Modes.UpdateOne | mode.go:79-109 | one mode string: its permitted changes on the shared array, and the rejected letters in order |
| Modes.UpdateLetters | mode.go:85-100 | the letters after a sign |
| Modes.UpdateSlice | mode.go:111-120 | mode, rejected letters and the updated flag as seen through the shared array, for any capacity |
| Modes.UpdateRefinesSets | mode.go:60-120 | from a duplicate-free mode, each letter is decided by its last permitted signed occurrence, or unchanged; no duplicates appear |
| Modes.LastSignWins | mode.go:79-109 | the last sign of a letter decides its presence |
| Modes.UpdatedExact | mode.go:111-122 | for only additions or only deletions and any capacity, updated is true exactly when the mode set changed |
| Modes.UpdatedExactly | mode.go:111-122 | for every list and capacity: if it fits the array the flag is right exactly when gained and lost letters differ in number or there are none; else exactly when they differ in number, or nothing is gained just if the new mode is what the changes before the growth left in the old array |
| Modes.FlagWhenFitting | mode.go:111-122 | the fitting case: updated means that the number of letters changed |
| Modes.GrownFlag | mode.go:62-75 | the growing case: updated means that the new mode differs from what the old array was left with |
| Modes.ChangeCounted | mode.go:79-109 | the set changes by the letters gained and lost by last sign, and so does its size |
| Modes.SpuriousUpdate | mode.go:62-120 | a mixed list that changes nothing and reports an update |
| Modes.MixedListLosesUpdate | mode.go:69-120 | a mixed list that changes the mode and reports no update |
| Modes.UserPermsNeverAdd | mode.go:15-39 | a letter the table does not let users add is never added |
| ModeStrings.Tables | mode.go:15-56 | what may be named, set and taken away in the two tables |
| ModeStrings.StringsDecide | mode.go:79-120 | a letter is present afterwards exactly if the last string that names it with a permitted sign has a plus, or no string does and it was there |
| ModeStrings.BadExactly | mode.go:79-120 | the rejected letters are exactly those at the positions their sign does not permit, in order, over the whole list |
| Hmac.EncodeBuffer | keyencode/encode.go:36-61 | header, padding loop and masked body as the codec function says |
| Hmac.CiphertextBytes | keyencode/encode.go:36-61 | the first bytes are the hash of the text; every text byte and every pad byte is XORed with the keystream whose IV is the last block of that hash |
| Bytes.XorIsExclusive | keyencode/encode.go:58 | the byte operation is exclusive or, bit by bit |
| Hmac.DecodeBuffer | keyencode/encode.go:63-93 | plaintext, error or panic as the codec function says |
| Hmac.DecodeExactly | keyencode/encode.go:63-93 | text exactly if the padding count fits and the hash of the unmasked text is the header; the two errors and the panics otherwise |
| Hmac.XorKeyStream | keyencode/encode.go:54-58 | the counter-mode mask over a buffer |
| Hmac.Padding | keyencode/encode.go:45-51 | PKCS#7: one to a block of bytes, each the count, filling the last block |
| Hmac.RoundTrip | keyencode/encode.go:36-93 | every string decodes to itself, for every block size from 1 to 255 and every hash |
| Hmac.EncodeInjective | keyencode/encode.go:10-14 | no two strings share an encoding |
| Hmac.DecodeAuthentic | keyencode/encode.go:76-92 | a plaintext is returned only if its hash is the header and it is what the body masks |
| KeyCodec.KeyParts | key.go:52-80 | every key splitKey accepts is the text of its parts |
| KeyCodec.SplitKeyExactly | key.go:52-80 | the accepted keys are exactly those of the written-out grammar |
| KeyCodec.EncodeShape | key.go:82-94 | the encoded key keeps everything but the data segment, which becomes the ciphertext's length and bytes |
| KeyCodec.DecodeSealed | key.go:96-114 | decoding finds the ciphertext by its length, whatever `/` it contains |
| KeyCodec.RoundTripExactly | key.go:82-114 | a key survives if and only if it is rooted and has a data segment |
| KeyCodec.EqualityPreserved | key.go:82-94 | distinct keys have distinct encodings |
| KeyCodec.PrefixPreserved | key.go:87-93 | a prefix that ends at a segment boundary is a prefix of a key exactly when the encodings are |
| KeyCodec.PrefixExactly | key.go:87-93 | and only such prefixes: one ending inside a data segment fails for some key |
| KeyCodec.LongerNameMissed | key.go:87-93 | the key it fails for |
| Bytes.RangeIsPrefix | keyencode/kv.go:163-167 | the range from a string to its prefix end holds exactly the strings it is a prefix of |
| Bytes.ScanPrinted | key.go:90-102 | the printed length scans back |
| KeyNames.RenderInjective | key.go:20-32 | no two typed keys share their bytes, whatever their names |
| KeyNames.Spelled | key.go:20-32 | the keys of users, channels and operators, letter for letter |
| KeyNames.ListsSpelled | key.go:27-28 | the keys of lists end in the lease in hexadecimal; their prefix ends in `/` |
| KeyNames.GoodExactly | key.go:20-32 | the encoder is right for exactly the keys whose name is not empty and does not start with `/` |
| KeyNames.SlashNickUnreadable | key.go:82-102 | the key of any nick that starts with `/` is stored in the clear and panics when decoded |
| KeyNames.QueriedPrefixes | key.go:27 | the prefixes the server asks for end at a segment boundary |
| KeyNames.SlashPrefix | key.go:27 | prefixes that end in `/` are prefixes in bytes exactly when they are in letters |
| KeyNames.ScanExactly | key.go:27-42 | a scan meets exactly the lists of the channel and of channels that continue its name after a `/` |
| KeyNames.ScanMeetsLonger | key.go:27-42 | a scan of `#a` meets the lists of `#a/b` |
| KeyNames.EncodedScan | key.go:27-42 | a scan of the encoded store meets exactly the same lists; with `/`-free names, those of the channel alone |
| KeyStore.SameRange | keyencode/kv.go:155-174 | a key is in an asked range exactly when its encoding is in the range encOp asks for |
| KeyStore.SameVerdict | keyencode/kv.go:67-75 | comparisons on encoded keys decide as on the plain ones |
| KeyStore.EffectMirrors | keyencode/kv.go:155-174 | an encoded operation does to the encoded store what the plain one does to the plain store |
| KeyStore.ListingDecodes | keyencode/kv.go:104-132 | a decoded listing has each plain entry of the range exactly once, and nothing panics |
| KeyStore.AnswerDecodes | keyencode/kv.go:134-153 | a decoded put, get or delete response answers the plain operation |
| KeyStore.SameRejects | keyencode/kv.go:42-46 | the encoded transaction is refused exactly when the plain one is |
| KeyStore.TxnRefines | keyencode/kv.go:95-102 | one transaction: no panic, a plain outcome, and stores still in step |
| KeyStore.RunRefines | keyencode/kv.go:42-102 | every history of the encoded store, seen through the wrapper, is a history of the plain store |
| KeyClient.DecodeKeys | keyencode/kv.go:104-132 | the loop rewrites every key in place, or panics exactly when one does not decode |
| KeyClient.DecodeResp | keyencode/kv.go:136-151 | one response by kind |
| KeyClient.DecodeResponses | keyencode/kv.go:134-153 | every response of a transaction, in place |
| KeyClient.EncodeOps | keyencode/kv.go:77-84 | every operation encoded, or a panic exactly when one cannot be |
| KeyClient.Store.Do | keyencode/kv.go:42-56 | to its user the plain store performs the operation |
| KeyClient.Store.Send | keyencode/kv.go:95-102 | to its user the plain store commits what was asked |
| KeyClient.TxnBuilder.If | keyencode/kv.go:67-75 | the wrapped transaction keeps encoding what was asked; a panic leaves it alone |
| KeyClient.TxnBuilder.Then | keyencode/kv.go:77-84 | the same for the success branch |
| KeyClient.TxnBuilder.Else | keyencode/kv.go:86-93 | the same for the failure branch |
| KeyClient.TxnBuilder.Commit | keyencode/kv.go:95-102 | end to end: the plain store commits the transaction that was built |
| KeyWatch.DecodeEvent | keyencode/watch.go:38-51 | both keys of an event, keyless events untouched |
| KeyWatch.DecodeResponse | keyencode/watch.go:37-52 | every event of a response in place, or a panic exactly when one does not decode |
| KeyWatch.Watch | keyencode/watch.go:36-60 | responses are forwarded in order and decoded, until stopped, drained or a panic |
| KeyWatch.StreamRefines | keyencode/watch.go:24-63 | the decoded stream of an encoded key or prefix is the plain stream: every event since the revision, once, by ascending revision, with its previous value |
| EncodedStore.IrcCoderValid | key.go:44-114 | the key encoder meets everything the encoded store and watcher need |
| EncodedStore.NopCoderValid | keyencode/encode.go:16-23 | so does the nop encoder |
| EncodedStore.EncryptionIsTransparent | internal/util/client.go:81-87 | from an empty cluster, for every hash and keystream, requests and watches through the installed encoder behave as on the plain store |
| EncodedStore.ServerKeysCovered | key.go:20-32 | the server's keys and scans are among those covered |
| Stack.CondCommit | etcd_client.go:52-57 | any conditional transaction on the bytes is the typed commit if its comparisons hold, and nothing otherwise |
| Stack.StmCommit | etcd_client.go:1147-1159 | the compare-and-put transaction of an attempt is never refused, succeeds exactly when the read set is current, then does to the bytes what the typed commit does to the records, and otherwise changes nothing |
| Stack.EncryptedCommandIsAtomic | internal/util/client.go:81-87 | for all commands, snapshots and encoders: the decoded answer reports success exactly when the reads are current, the plain bytes then track the protocol's next state at its revision, and the encrypted store mirrors them |
| StackRuns.EventStands | etcd_client.go:52-122 | one attempt, registration, cleanup, appointment or expiry keeps the protocol, the plain bytes and the encrypted bytes in step |
| StackRuns.EncryptedRun | internal/util/client.go:81-87 | every run of such events on the encrypted store is a run of enabled protocol steps from the empty store |
| StackRuns.EncryptedBytesAgree | etcd_client.go:232-278 | after any such run, whatever record and list are stored under their encrypted keys, the list has the nick as often as the record of its lease has the channel |
| ClusterWatch.HistoryTracked | etcd_client.go:1147-1159 | over any such run, every revision of the plain bytes holds the typed records as of that revision |
| ClusterWatch.ClusterWatches | keyencode/watch.go:24-63 | over any such run, what the encrypted store delivers on the watch of a key decodes and is, event for event, the typed watch of that key |
| ClusterWatch.PreviousValue | etcd_client.go:318-323 | an event of such a watch brings the record as it was one revision before, if there was one |
| ClusterWatch.ClusterDelivers | etcd_client.go:301-315 | so a channel watcher of the cluster hears exactly the broadcasts since its join, up to its own departure |
| Stack.WrittenOnce | etcd_client.go:1147-1159 | each key of a write set gets what its write says, whatever the order in which the writes are sent |
| Stack.GetReads | etcd_client.go:1147-1159 | a get of a printed key brings back the typed record and its mod-revision, or nothing for a missing one |
| Stack.PrinterInjective | key.go:20-32 | the key builders never print two typed keys alike |
| Session.StepSafe | session.go:43-89 | every step of loop, environment and callers keeps the session invariant and only advances channels and session |
| Session.RunSafe | session.go:35-89 | so does every run |
| Session.ClosesExactly | session.go:57 | a run closes a channel once if it ends closed and began open, and otherwise never |
| Session.ClosedAtMostOnce | session.go:35-72 | in every interleaving each readiness channel is closed at most once, so close never panics |
| Session.SessionFresh | session.go:76-89 | Session() without error returns a session, no older than the one announced on the channel it waited for |
| Session.CancelledMeansError | session.go:76-94 | once the keeper is cancelled no call that has not returned by then returns without an error |
| Session.ErrorMeansCancelled | session.go:76-89 | a call returns an error only if the keeper is cancelled |
| Session.LaterReadNotOlder | session.go:85-88 | a caller that reads after another caller has read gets a session that is no older |
| Session.NobodyStuck | session.go:76-84 | while a session is served, every waiting caller can go on |
| Session.ReadLostExactly | session.go:85-87 | without cancellation, in every interleaving, the session a caller reads is lost exactly when the loop is between sessions or the one it stands by is lost |
| Session.ReturnLostExactly | session.go:76-89 | and the session it returns is lost exactly when the loop no longer stands by it or it is lost under the loop |
| Session.ReturnedMayBeLost | session.go:76-89 | a run in which a session returned without error is already lost |

## Left out

- conn.go, server.go, client.go dispatch, MOTD and internal/util/tee.go: sockets, goroutine plumbing, arity checks and fixed replies.
- gob encoding of records and messages: taken as an injective codec, so `Created` and `RealName`, which no decision reads, are not fields, and `User` is one string.
- etcd, the STM library, AES and HMAC: stated hypotheses; the byte-level etcd of `KeyStore` is a relation with a small implementation in `KeyClient.Server`.
- Ping, Die, Nick, Whois, LIST counts and reply texts: nothing hard to prove.
- cmd/*, configuration and key exchange: wiring; ircdctl notices are therefore not steps of the protocol.
- Orphaned leases, when a server opens a new session while the old lease's keys exist: excluded by the lease hypothesis, whose necessity is proved.
- usersFromChannel at a past revision (etcd_client.go:1094-1110): it reads lists and records at different revisions; only current-revision queries and sendParts are covered.
- chanMode reads the session field without waiting for it (etcd_client.go:466): the nil session before the first one is not modelled.
- Watchers.Connection.MonitorMsg: cancellation of the context in the middle of a batch is not modelled.
- KeyStore.RunRefines: says nothing about the order of a listing, which encoding does not keep, nor about limits and sort options, which the server does not use.
- KeyStore.EncOp: from-key ranges pass through as in the source, and no claim is made about them.
- KeyWatch.StreamRefines: events of one revision may come in any order, and progress notifications and compaction are not modelled.
- Bytes.ScanNumber: signs, leading blanks and overflow of the scanned length are not modelled; the encoder never writes them.
- StackRuns.EncryptedRun: the byte-level store has no lease table, so a registration with a dead lease, which etcd refuses, is not an event; each attempt is taken to have read one earlier state, as the STM library arranges.
- Session.NobodyStuck: is about enabled steps, not about fairness.
