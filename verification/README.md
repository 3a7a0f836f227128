# A verified model of the POA bridge

The bridge moves ether between a *home* and a *foreign* chain. Validators run a relayer (Rust) that reads
events on one chain and sends transactions to contracts (Solidity) on the other; the contracts act once a
quorum of validators has spoken. This project models the parts on which the safety of funds rests and proves
properties of whole runs of them:

- the quorum contracts as step machines, with reverts as rollback and re-entry to any depth;
- the byte formats and the signed digest that the relayer and the contracts must agree on;
- the relayer: log stream, relays, nonces, checkpoints and their file, as one process under arbitrary
  interleaving, failure and restart, and many such processes against one contract;
- the token ledger with its callback into the bridge.

`dafny verify dfyconfig.toml` checks everything.

## How the model is laid out

| file | what it models |
|---|---|
| Wrappers, Bytes, Evm | options, big-endian integers, `mload`, addresses, the ideal hash |
| Message, Signature, Numerals, Signing | the 116-octet message, the 65-octet signature, `uintToString`, the three digests |
| SignatureCheck | both `hasEnoughValidSignatures` |
| Validators | `BridgeValidators` |
| Confirmations, Foreign, MapForeign | the deposit quorum in array form and in map-and-counter form, and signature collection |
| Home | `withdraw` in its plain and its fee-charging form |
| Token | `BridgeableToken`, `receiveApproval` |
| LogStream, Nonce, Database, EventStream, Funding | the components of the relayer |
| Payloads, Batches | from logs to transactions |
| Pipeline, Rounds, Relays, Process | the relayer process: every interleaving, the rounds that complete, and the poll loops that are such interleavings |
| CrashTolerance | many processes and the foreign bridge |
| EndToEnd | from collected signatures to the payment on the home chain |

Objects the source updates in place are classes whose methods are proved equal to a function on values
(`Step`, `Confirm`, `Exec`, `Poll`, ...); the theorems over runs are about those functions. For the relayer the
methods are proved to be runs of the interleaving model in `Pipeline`.

Idealisations. `keccak256` is an injective constructor, since an injective function into 32 octets does not
exist; all packed keys have fixed width and are proved unambiguous. `ecrecover` is a parameter, any function
at all. `bytes memory` is a finite octet string in a memory that reads zero where it was never written.
Answers of nodes, timers, gas prices and the file system are inputs, and quantified over. Where a
claim needs an honest node, that is said of its answers: requests for logs are answered from one unchanging
chain, view calls by what the foreign bridge holds (`LogStream.Answered`, `Batches.AnswersFor`). Every lemma is
proved with automatic induction switched off.

Where the code and its comments differ, the model follows the code:

- contracts/bridge.sol:125 says the octets before the recipient are zero; they are the end of the big-endian
  length word and are not zero, and the read is right only because an address is cut to 160 bits
  (`Message.RecipientWord`).
- truffle/contracts/ForeignBridge.sol:119 and truffle/contracts/libraries/helpers.sol:141 have their length
  checks commented out, while the digest has the length 116 hard-coded; messages of other lengths can be
  collected and never withdrawn (`EndToEnd.OtherLengthIsStuck`).

Properties that hold only under a condition, each with the condition and a run or input that breaks it:

| property | holds exactly when | counterexample |
|---|---|---|
| the validator count is the number of active validators | no listed address is listed again: `Validators.AccurateIffNeverRelists` | `Validators.ReAddedValidatorIsCountedTwice` |
| a deposit is paid at most once | a call pays again iff the threshold is one above the confirmers: `Foreign.ConfirmationPaysIff`; it never happens unless the threshold is raised: `Foreign.PaidOnceUnlessRaised` | `Foreign.ThresholdChangePaysTwice` |
| a completed fee-charging withdraw pays out exactly its value | the relay cost is at most the value: `Home.TotalWraps`; it always is while the contract holds less than 2^255 wei, whoever is paid and calls back: `Home.ExactPayout`, and that bound is sharp | `Home.SelfRecipientWraps`, `Home.CallbackWraps` |
| the hard-coded digest is the signed one | the message has 116 octets: `Signing.HardCodedDigestAgrees` | `EndToEnd.OtherLengthIsStuck` |
| the saved file is the printed database | what followed the database in the loaded file is no longer than the database has grown since: `Database.SavesEatTail`; otherwise it can be loaded again iff blank lines and comments are left: `Database.ParseFollowed` | `Database.CommentBreaksFile` |
| the nonces held by concurrent senders are different throughout | no sender ends a poll with a nonce in use, that is the shared one when it starts and the count answered when it refetches: `Nonce.DistinctIffNeverReuses`; without refetches, iff at most 2^256 were taken: `Nonce.NoncesContiguous`, `Nonce.NoncesDistinct` | `Nonce.RefetchedNonceIsReused` |
| what was collected can be withdrawn, if the validators changed meanwhile | enough signatures are relayed and the first ones come from validators of the home bridge: `EndToEnd.RelayedQuorumIff` | every collection with a removed validator among its first signers |
| a withdraw-relay batch is covered by what was checked | its prices average at most the oracle's: `Funding.RelayCoveredIff` | `Funding.RelayUnderfunded` |

## Model

| member | source | states |
|---|---|---|
| `Message.ToBytes` | bridge/src/message_to_mainnet.rs:53-61 | the zeroed buffer, filled slice by slice, has 116 octets and decodes to the message |
| `Message.DecodeEncode` | bridge/src/message_to_mainnet.rs:23-32 | `from_bytes` undoes `to_bytes` on every message |
| `Message.EncodeDecode` | bridge/src/message_to_mainnet.rs:23-61 | every 116-octet string is the encoding of exactly one message |
| `Message.RecipientWord` | contracts/bridge.sol:125-143 | the word read for the recipient is the recipient plus 2^160 times the length; truncation gives the recipient |
| `Message.GettersAgree` | truffle/contracts/libraries/helpers.sol:88-122 | the four `mload` getters read the fields the relayer decodes, whatever follows in memory |
| `Signature.ToBytes` | bridge/src/signature.rs:33-39 | the buffer filled in place parses back to the signature |
| `Signature.RoundTrip` | bridge/src/signature.rs:21-39 | parsing and printing are inverse both ways; other lengths are refused |
| `Signature.SplitsAgree` | truffle/contracts/libraries/helpers.sol:162-174 | contract and relayer split or refuse every octet string alike |
| `Numerals.UintToString` | truffle/contracts/libraries/helpers.sol:19-37 | for every uint256 the loops write the shortest decimal numeral, in range, although the index wraps at the end |
| `Numerals.DecimalUnique` | truffle/contracts/libraries/helpers.sol:19-37 | no numeral of a number is shorter than the printed one, and no other is as short |
| `Numerals.ShortestIsDecimal` | truffle/contracts/libraries/helpers.sol:19-37 | the printed numeral is the only shortest one, so any two correct printers agree |
| `Signing.RelayerDigestAgrees` | bridge/src/api.rs:148-155 | relayer and contract hash the same preimage for every message (EIP-191, version 0x45) |
| `Signing.HardCodedDigestAgrees` | truffle/contracts/libraries/helpers.sol:128-133 | the digest with "116" hard-coded is the signed digest iff the message has 116 octets |
| `Signing.DigestCommits` | truffle/contracts/libraries/helpers.sol:176-179 | two messages with one digest are equal, although length and message are packed without separator |
| `Signing.PersonalMessage` | truffle/contracts/libraries/helpers.sol:176-179 | the preimage is 0x19, version 0x45, its text, the length of the message, and the message last (EIP-191) |
| `SignatureCheck.AddressArrayContains` | truffle/contracts/libraries/helpers.sol:8-15 | true iff the address occurs |
| `SignatureCheck.HasEnoughValidSignatures` | truffle/contracts/libraries/helpers.sol:43-65 | true iff the first required signers are allowed, nonzero and distinct; reverts only for missing `rs`/`ss`; never writes out of bounds |
| `SignatureCheck.SlotFree` | truffle/contracts/libraries/helpers.sol:50-62 | pigeonhole: an allowed signer not yet encountered leaves a free slot |
| `SignatureCheck.RequireEnoughValidSignatures` | truffle/contracts/libraries/helpers.sol:135-155 | returns iff the first required signers of the hard-coded digest are distinct nonzero validators |
| `SignatureCheck.QuorumCounts` | truffle/contracts/libraries/helpers.sol:43-65 | signers are a quorum iff as many different nonzero validators are among them as there are signers |
| `SignatureCheck.ChecksAgree` | truffle/contracts/libraries/helpers.sol:135-155 | on 116-octet messages both checks accept the same calls when the list is the active set |
| `Validators.BridgeValidators.Initialize` | truffle/contracts/BridgeValidators.sol:29-53 | the whole new storage, or the old one on a revert, also in the middle of the list |
| `Validators.BridgeValidators.AddValidator` | truffle/contracts/BridgeValidators.sol:65-71 | new storage or revert |
| `Validators.BridgeValidators.RemoveValidator` | truffle/contracts/BridgeValidators.sol:73-78 | new storage or revert; the array entry stays |
| `Validators.BridgeValidators.SetRequiredSignatures` | truffle/contracts/BridgeValidators.sol:80-85 | new storage or revert; by `Validators.AcceptedIff` and `Validators.CallEffects` it stores its argument iff the owner calls and 1 <= argument <= count |
| `Validators.BridgeValidators.ValidatorCount` | truffle/contracts/BridgeValidators.sol:87-93 | counts active entries, at least the number of listed active validators |
| `Validators.AcceptedIff` | truffle/contracts/BridgeValidators.sol:29-85 | exactly when each call is accepted: once for `initialize`, else the owner as sender and the guards of the call |
| `Validators.CallEffects` | truffle/contracts/BridgeValidators.sol:29-85 | field by field what an accepted call changes, and that everything else stays |
| `Validators.ThresholdInForce` | truffle/contracts/BridgeValidators.sol:80-85 | in every run the threshold is the argument of the last accepted `initialize` or `setRequiredSignatures`, the latter sent by the owner of that moment |
| `Validators.ValidatorIffAddedLast` | truffle/contracts/BridgeValidators.sol:65-78 | in every run an address is a validator iff the last accepted call about it listed or added it; only the owner of the moment adds and removes |
| `Validators.CountIsPlaces` | truffle/contracts/BridgeValidators.sol:87-93 | the count is the number of array places that hold an active address |
| `Validators.StepKeepsWellFormed` | truffle/contracts/BridgeValidators.sol:29-85 | every call of an account keeps: active validators are listed and zero is never one |
| `Validators.CountExact` | truffle/contracts/BridgeValidators.sol:87-93 | the count is the number of active validators iff no active address is listed twice |
| `Validators.AccurateIffNeverRelists` | truffle/contracts/BridgeValidators.sol:29-98 | throughout a run the count is exact and 1 <= threshold <= active iff the run never lists an address again |
| `Validators.ReAddedValidatorIsCountedTwice` | truffle/contracts/BridgeValidators.sol:65-78 | a run ending with one active validator, a count of two and two signatures required |
| `Confirmations.VoteRefines` | contracts/bridge.sol:459-479 | flag-and-counter accepts, refuses and counts a vote exactly as the signer array does |
| `Confirmations.DistinctAddresses` | contracts/bridge.sol:471-476 | distinct addresses are too few for the unchecked counter to wrap |
| `MapForeign.MapForeignBridge.Deposit` | contracts/bridge.sol:465-486 | new storage or revert |
| `MapForeign.MapForeignBridge.SetTokenAddress` | contracts/bridge.sol:438-450 | new storage or revert |
| `MapForeign.VotesInjective` | contracts/bridge.sol:440-472 | the packed vote keys name one sender and one subject |
| `MapForeign.DepositEffects` | contracts/bridge.sol:465-486 | exactly when a confirmation is accepted, and all it changes: its flag, its counter, the payment at the threshold |
| `MapForeign.ApprovalEffects` | contracts/bridge.sol:438-450 | exactly when an approval is accepted, and all it changes; the one reaching the threshold puts its token in force |
| `MapForeign.DepositSimulates` | contracts/bridge.sol:465-486 | one confirmation: apart from a missing token and failing payouts both contracts refuse it for the same reasons, try to pay at the same step, pay alike and stay in correspondence |
| `MapForeign.MapFormRefinesArrayForm` | contracts/bridge.sol:465-486 | whole runs: same verdicts, counter = number of distinct confirmers, every order paid as often |
| `MapForeign.TokenNeedsQuorum` | contracts/bridge.sol:438-450 | a token is set once, iff the required number of distinct authorities approved it; the one in force has a quorum |
| `Foreign.ForeignBridge.Initialize` | truffle/contracts/ForeignBridge.sol:55-63 | binds the validator contract once |
| `Foreign.ForeignBridge.ReceiveEther` | truffle/contracts/ForeignBridge.sol:71-75 | new storage or revert |
| `Foreign.ForeignBridge.ConfirmDeposit` | truffle/contracts/ForeignBridge.sol:90-107 | new storage or revert, a failed payout included |
| `Foreign.ForeignBridge.SubmitSignature` | truffle/contracts/ForeignBridge.sol:115-136 | new storage or revert; by `Foreign.CallAppends` the submission that reaches the threshold announces its sender as responsible |
| `Foreign.AcceptedIff` | truffle/contracts/ForeignBridge.sol:71-136 | exactly when each call is accepted, from its arguments, the validators and the state |
| `Foreign.CallAppends` | truffle/contracts/ForeignBridge.sol:71-136 | the exact events an accepted call appends and the new balance |
| `Foreign.BalanceAccounts` | truffle/contracts/ForeignBridge.sol:71-107 | in every run the balance moves by the ether announced as received less the ether announced as paid |
| `Foreign.DepositKeyInjective` | truffle/contracts/ForeignBridge.sol:92 | the packed key names one order |
| `Foreign.StepPays` | truffle/contracts/ForeignBridge.sol:90-107 | a transaction adds at most one new confirmer, a validator, and pays iff that reaches the threshold |
| `Foreign.PaidExactlyAtThreshold` | truffle/contracts/ForeignBridge.sol:90-107 | with a fixed threshold an order is paid once if its confirmers cross it during the run, else not |
| `Foreign.ConfirmersRelayed` | truffle/contracts/ForeignBridge.sol:90-107 | confirmers are distinct and each relayed the order while a validator |
| `Foreign.DepositSafety` | truffle/contracts/ForeignBridge.sol:90-107 | from deployment, fixed threshold: paid once iff there are that many distinct validators that relayed it |
| `Foreign.ResentConfirmation` | truffle/contracts/ForeignBridge.sol:94-95 | a confirmation sent again changes nothing, whatever happened in between |
| `Foreign.ConfirmationPaysIff` | truffle/contracts/ForeignBridge.sol:102-106 | exactly when a confirmation pays, from the state before it |
| `Foreign.PaidOnceUnlessRaised` | truffle/contracts/ForeignBridge.sol:102-106 | in every run that never raises the threshold each order is paid at most once |
| `Foreign.ThresholdChangePaysTwice` | truffle/contracts/ForeignBridge.sol:102-106 | raising the threshold after a payment pays the same order again |
| `Foreign.StepCollects` | truffle/contracts/ForeignBridge.sol:115-136 | a transaction adds at most one new signer, a validator, to a collection and announces it iff that reaches the threshold |
| `Foreign.StepKeepsSound` | truffle/contracts/ForeignBridge.sol:115-136 | stored signers stay distinct and parallel to signatures that recover them |
| `Foreign.RunKeepsSound` | truffle/contracts/ForeignBridge.sol:115-145 | in every run, with changing validators and threshold: collections stay sound and only grow, each signer signed while a validator, each announcement was at a threshold the signers still reach |
| `Foreign.AnnouncedExactlyAtThreshold` | truffle/contracts/ForeignBridge.sol:130-135 | with a fixed threshold a collection is announced once, when its signers reach it, else not |
| `Foreign.AnnouncedAuthority` | truffle/contracts/ForeignBridge.sol:130-133 | in every run, with changing validators and threshold, each announcement makes the validator responsible whose signature brought the collection to the threshold |
| `Foreign.ViewsStay` | truffle/contracts/ForeignBridge.sol:138-145 | what the views answer for a collection they keep answering |
| `Home.HomeBridge.Execute` | truffle/contracts/HomeBridge.sol:71-90 | a call with its re-entrant calls, each with the validator contract's answers of its moment: new storage, or the old one on a revert; by `Home.WithdrawNeedsQuorum` a withdraw needs a quorum of signatures of its own message |
| `Home.HomeBridge.Transfer` | contracts/bridge.sol:337-341 | a payment hands over control and fails without balance or acceptance |
| `Home.AuthorisedIffSigned` | truffle/contracts/HomeBridge.sol:72-75 | the guards hold iff enough complete signatures are given and the first required ones recover, from the digest of this message, to distinct nonzero validators; charging form: also the length 116 and the gas price or the recipient as sender |
| `Home.WithdrawNeedsQuorum` | truffle/contracts/HomeBridge.sol:71-90 | a withdraw that goes through, whoever calls back, had such a quorum and a new hash, and is recorded with its own hash and value |
| `Home.ReceiveEffects` | truffle/contracts/HomeBridge.sol:43-47 | what the fallback function takes, credits and announces, in both forms |
| `Home.PayIff` | contracts/bridge.sol:337-341 | a payment goes through iff the balance covers it and the receiver takes it |
| `Home.SelfPayment` | contracts/bridge.sol:290-292 | ether the bridge pays itself comes back as a deposit |
| `Home.ReplaySafety` | truffle/contracts/HomeBridge.sol:71-90 | for all calls, changing validators and thresholds, re-entry to any depth, reverts anywhere: no hash paid twice, every completed withdraw had a quorum, the payouts are exactly those due to recipients and senders of completed withdraws, ether in = balance + ether paid |
| `Home.TotalWraps` | contracts/bridge.sol:332-341 | the two unchecked amounts add up to the value, or to 2^256 more iff the cost exceeds the value |
| `Home.ExactPayout` | contracts/bridge.sol:332-341 | every completed withdraw of every run paid exactly its value, whoever is paid and calls back, if the contract held less than 2^255 wei when it paid |
| `Home.ChargingCompletesIff` | contracts/bridge.sol:305-344 | when a fee-charging withdraw goes through: authorised, new, cost <= value <= balance; it then pays exactly the value |
| `Home.SelfChargingCompletesIff` | contracts/bridge.sol:305-344 | the same for the bridge as recipient: authorised, new, and each of the two amounts is held |
| `Home.ChargingPays` | contracts/bridge.sol:332-341 | it pays the recipient the value less the cost, the sender the cost, and nobody else |
| `Home.SelfRecipientWraps` | contracts/bridge.sol:332-341 | with 2^255 wei held and the bridge as recipient, a withdraw worth nothing pays out 2^256 wei |
| `Home.CallbackWraps` | contracts/bridge.sol:332-341 | the same with a recipient that sends its payment straight back |
| `Token.SafeAdd` | contracts/BridgeableToken.sol:31-35 | the comparison after a wrapping addition detects exactly the overflows |
| `Token.BridgeableToken.Transfer` | contracts/BridgeableToken.sol:158-163 | new ledger or throw |
| `Token.BridgeableToken.TransferFrom` | contracts/BridgeableToken.sol:165-173 | new ledger or throw |
| `Token.BridgeableToken.Approve` | contracts/BridgeableToken.sol:179-190 | new ledger or throw |
| `Token.BridgeableToken.Mint` | contracts/BridgeableToken.sol:219-229 | new ledger or throw |
| `Token.TransferEffects` | contracts/BridgeableToken.sol:158-163 | succeeds iff the sender has the value and it fits; moves exactly the value, allowances stay |
| `Token.TransferFromEffects` | contracts/BridgeableToken.sol:165-173 | the exact condition; moves exactly the value and uses up as much of the allowance |
| `Token.ApproveEffects` | contracts/BridgeableToken.sol:179-190 | a nonzero allowance is only replaced through zero; only that allowance changes |
| `Token.MintEffects` | contracts/BridgeableToken.sol:219-229 | only for mint agents and without overflow; supply and one balance grow by the wrapped product |
| `Token.ReceiveApprovalNeeds` | contracts/bridge.sol:505-513 | only the trusted token can call back, and only for an allowed value |
| `Token.ApproveAndCallElsewhere` | contracts/BridgeableToken.sol:259-264 | the spender is allowed the value before it is called; if it throws nothing happened |
| `Token.TransferFromConserves` | contracts/BridgeableToken.sol:165-173 | the balances still add up to the supply, source and target equal included |
| `Token.MintConserves` | contracts/BridgeableToken.sol:219-229 | a wrapped amount is minted to supply and balance alike |
| `Token.ExecConserves` | contracts/BridgeableToken.sol:158-264 | every call, with its callbacks, keeps the sum of balances equal to the supply |
| `Token.SupplyIsSumOfBalances` | contracts/BridgeableToken.sol:158-264 | the same in every reachable state; no balance exceeds the supply |
| `Token.ApproveAndCallOnBridge` | contracts/bridge.sol:505-513 | succeeds iff the bridge trusts the token and the caller has the amount; moves it, announces one withdrawal, leaves no allowance, changes nothing else |
| `LogStream.LogStream.PollOnce` | bridge/src/api.rs:220-264 | the loop computes the polling function on state and answers |
| `LogStream.PollAdvances` | bridge/src/api.rs:220-264 | a poll yields the nonempty block range right after the last one, or leaves the position in place |
| `LogStream.PollWithinConfirmed` | bridge/src/api.rs:230-240 | a range ends at a reported best block less the confirmations |
| `LogStream.YieldsIff` | bridge/src/api.rs:220-264 | a waiting stream yields in a poll iff a reported block, less the confirmations, is past the position and its logs are answered too; it then yields exactly the blocks up to there with those logs |
| `LogStream.PollsTile` | bridge/src/api.rs:220-264 | for all answers, rollbacks included: no gap, no overlap, no empty range, no overflow |
| `LogStream.PollsStayConfirmed` | bridge/src/api.rs:230-240 | no range ever passes a reported best block less the confirmations |
| `LogStream.PollsYieldChain` | bridge/src/api.rs:220-264 | if requests for logs are answered from one unchanging chain, whatever else is reported, the concatenated logs the polls yield are the chain's logs over the covered blocks, once and in order |
| `LogStream.RestartLeavesNoGap` | bridge/src/bridge/mod.rs:47-67 | polls up to a yielded item and polls of a stream started at its end tile the blocks; from an honest node their logs are the chain's over all of them |
| `Nonce.NonceCheck.Poll` | bridge/src/bridge/nonce.rs:67-124 | the loop computes the polling function on sender and shared nonce, whose outcome `Nonce.PollOutcome` tells from the answers |
| `Nonce.PollOutcome` | bridge/src/bridge/nonce.rs:100-119 | from the answers alone: a poll ends in `Sent` iff, after any number of refused nonces and refetches, the node accepted the transaction or reported it imported; it fails iff some request was refused for good |
| `Nonce.OnlyNonceChanges` | bridge/src/bridge/nonce.rs:67-124 | any number of retries changes only the nonce of the transaction |
| `Nonce.NoncesContiguous` | bridge/src/bridge/nonce.rs:70-79 | for every interleaving without refetch the nonces are the initial one and its successors, one per sender |
| `Nonce.NoncesDistinct` | bridge/src/bridge/nonce.rs:70-79 | these are pairwise distinct iff at most 2^256 were taken |
| `Nonce.PollTakes` | bridge/src/bridge/nonce.rs:67-124 | a poll leaves the sender with the count answered last, else the shared nonce if it starts, else its own; after a refetch the shared nonce is the sender's |
| `Nonce.DistinctStep` | bridge/src/bridge/nonce.rs:67-124 | one poll, with any refetches, keeps the nonces distinct iff it does not end with a nonce in use |
| `Nonce.DistinctIffNeverReuses` | bridge/src/bridge/nonce.rs:67-124 | for every interleaving with refetches: distinct throughout iff no poll ends with a nonce in use |
| `Nonce.RefetchedNonceIsReused` | bridge/src/bridge/nonce.rs:86-91 | after any poll that refetched and any moves in between that neither start nor refetch, the next sender to start takes the same nonce |
| `Database.Bridge.Save` | bridge/src/bridge/mod.rs:49-66 | records the checkpoint and overwrites the file from its start |
| `Database.RecordEffects` | bridge/src/bridge/mod.rs:49-57 | each checkpoint goes to its own field and no other |
| `Database.PrintText` | bridge/src/database.rs:65-74 | the file, line by line: every field under its name, in order, absent ones left out |
| `Database.HexText` | bridge/src/database.rs:65-74 | addresses are printed as two lower-case hexadecimal digits per octet |
| `Database.SaveIsExactIff` | bridge/src/database.rs:54-57 | the untruncated write leaves exactly the text iff the old file was no longer |
| `Database.PrintGrows` | bridge/src/database.rs:35-39 | a later checkpoint never prints shorter |
| `Database.SavesAreExact` | bridge/src/bridge/mod.rs:49-66 | in every run with checkpoints that never decrease the file is the printed database after each save |
| `Database.SavesEatTail` | bridge/src/bridge/mod.rs:49-66 | over a run of saves, of what followed the database in the file as many octets are gone as it has grown; exact iff that was all |
| `Database.ParseFollowed` | bridge/src/database.rs:42-57 | such a file can be loaded iff what is left are blank lines and comments |
| `Database.CommentBreaksFile` | bridge/src/bridge/mod.rs:59-64 | a file ending in a comment, one more block checked: the saved file cannot be loaded |
| `Database.ParseIff` | bridge/src/database.rs:27-51 | the parser accepts a file as a database iff it is that database as printed, followed by blank lines and comments |
| `Database.TriviaIff` | bridge/src/database.rs:42-51 | what may follow is empty lines and lines that start with a hash sign |
| `Database.ParseIsLoad` | bridge/src/database.rs:42-51 | the parser computes the one database a file holds, if it holds one |
| `Database.PrintInjective` | bridge/src/database.rs:65-90 | different databases print differently, whatever follows |
| `Database.LoadPrinted` | bridge/src/database.rs:42-57 | loading a saved file gives the saved database |
| `EventStream.CheckBalances` | bridge/src/bridge/mod.rs:150-169 | a known balance stays known; the stream goes on only with both known |
| `EventStream.BalancesAreNewest` | bridge/src/bridge/mod.rs:149-167 | after a check each balance is the newest one answered; exactly when the check fails or lets the stream go on |
| `EventStream.BridgeEventStream.PollOnce` | bridge/src/bridge/mod.rs:191-217 | the loop computes the polling function |
| `EventStream.PollVerdict` | bridge/src/bridge/mod.rs:188-218 | what a poll yields, from the answers: an event iff the relays are asked and have one, an error iff a check or a relay fails or a shutdown is requested |
| `EventStream.PollFaithful` | bridge/src/bridge/mod.rs:191-217 | an event taken from the relays is yielded by the same poll; relays are asked only with both balances known |
| `EventStream.StreamFaithful` | bridge/src/bridge/mod.rs:191-217 | any number of polls yields exactly the relays' events in order and never forgets a balance |
| `Funding.NoOverflow` | bridge/src/bridge/deposit_relay.rs:92-94 | the required balance stays below 2^192 and neither product overflows |
| `Funding.BatchCovered` | bridge/src/bridge/deposit_relay.rs:92-98 | a batch that passes the check costs at most the balance |
| `Funding.FundedIff` | bridge/src/bridge/deposit_relay.rs:92-98 | the check lets a batch through iff the known balance covers what it costs |
| `Funding.RelayCoveredIff` | bridge/src/bridge/withdraw_relay.rs:189-192 | a batch sent at message prices costs what was checked or less iff these average at most the oracle's |
| `Funding.RelayUnderfunded` | bridge/src/bridge/withdraw_relay.rs:189-192 | a batch that passes the check and exceeds the balance |
| `Batches.DepositBatchMatches` | bridge/src/bridge/deposit_relay.rs:22-31 | built iff every log is a mined deposit; one transaction per log, to the configured contract with its gas limit and no value, whose order has the recipient, value and hash of the log |
| `Batches.ConfirmBatchPairs` | bridge/src/bridge/withdraw_confirm.rs:93-139 | built iff every log is a mined withdrawal the key signs; one transaction per log, whose message decodes to the withdrawer, amount, hash and gas price of the log, with a signature of that very message |
| `Batches.ReceivedAnswers` | bridge/src/bridge/withdraw_relay.rs:152-176 | whatever order answers arrive in, what is joined are the node's answers for the own logs, in order |
| `Batches.AssignmentsAreOwn` | bridge/src/bridge/withdraw_relay.rs:37-63 | filtering and unzipping leaves the calls of exactly the own logs, in order, both lists equally long |
| `Batches.ArrivalOrderIrrelevant` | bridge/src/bridge/withdraw_relay.rs:152-176 | whatever order answers arrive in, each lands with the call it answers |
| `Batches.RelayBatchPairs` | bridge/src/bridge/withdraw_relay.rs:138-240 | the length assertion holds; each withdraw carries message and all signatures of one own log, at the message's price |
| `Batches.RelayBatchIff` | bridge/src/bridge/withdraw_relay.rs:178-240 | a withdraw batch can be built iff the messages have 116 octets and the signatures 65 |
| `Batches.AssignmentsIff` | bridge/src/bridge/withdraw_relay.rs:37-63 | logs can be assigned iff all are announcements of collected signatures |
| `Pipeline.BatchContent` | bridge/src/bridge/deposit_relay.rs:22-31 | each transaction of a batch goes to the relay's contract and confirms the recipient, value and hash of its own log, or submits the message with the withdrawer, amount, hash and gas price of its own log and a signature of its digest |
| `Pipeline.FetchedContent` | bridge/src/bridge/withdraw_relay.rs:184-240 | from an honest node, each withdraw carries the message and all signatures held for its own log |
| `Pipeline.OnLogsOk` | bridge/src/bridge/deposit_relay.rs:82-121 | taking an item from the log stream keeps the invariant of the process |
| `Pipeline.OnFetchedOk` | bridge/src/bridge/withdraw_relay.rs:178-246 | sending what was fetched keeps the invariant |
| `Pipeline.OnJobOk` | bridge/src/bridge/nonce.rs:100-119 | polling a transaction keeps the invariant; what counts as handled is said by `Pipeline.RunTakes` |
| `Pipeline.JobOutcome` | bridge/src/bridge/nonce.rs:100-119 | a poll adds a transaction to what the nodes have taken iff its answers say it was accepted or already imported, and ends the process iff a request was refused for good |
| `Pipeline.RunTakes` | bridge/src/bridge/nonce.rs:100-119 | over a whole run, what the nodes have taken is exactly what such answers during the run say |
| `Pipeline.PersistOk` | bridge/src/bridge/mod.rs:49-66 | saving a checkpoint keeps the invariant, a failed write included |
| `Pipeline.StepOk` | bridge/src/bridge/mod.rs:47-67 | every step, error and restart keeps the invariant |
| `Pipeline.CheckpointNeverAhead` | bridge/src/bridge/mod.rs:47-67 | in every reachable state the file loads and every log up to a checkpoint, in file or memory, that this validator must handle had a transaction which an answer of the run says was accepted or already imported |
| `Pipeline.TransactionsMatchLogs` | bridge/src/bridge/withdraw_relay.rs:138-240 | in every reachable state, whatever was retried, every transaction on its way or taken is the one for its own log of the chain |
| `Rounds.RoundCompletes` | bridge/src/bridge/deposit_relay.rs:79-135 | if the stream yields usable logs, the balance covers them and every transaction is taken after any retries, the round ends with all logs handled and their last block as checkpoint in memory and on disk |
| `Rounds.RelayRoundCompletes` | bridge/src/bridge/withdraw_relay.rs:118-262 | the same for the withdraw relay and its own logs, with messages of 116 octets and signatures of 65 fetched |
| `Relays.JoinAll` | bridge/src/bridge/withdraw_relay.rs:152-176 | one result per call in the order of the calls; fails iff one fails |
| `Relays.JoinBothOutcome` | bridge/src/bridge/withdraw_relay.rs:152-183 | both joins are ready iff every call is, and fail iff one does |
| `Relays.JoinedAnswers` | bridge/src/bridge/withdraw_relay.rs:152-176 | joined answers of a node are its answers for the logs the calls were made for |
| `Relays.Relay.AwaitLogs` | bridge/src/bridge/deposit_relay.rs:82-121 | is a step of the process; the jobs are the batch of their logs and cost at most the balance |
| `Relays.Relay.AwaitFetched` | bridge/src/bridge/withdraw_relay.rs:178-246 | is a step of the process, honest if the view calls were answered honestly; what it sends is covered by the balance at the oracle's price |
| `Relays.Relay.AwaitSent` | bridge/src/bridge/deposit_relay.rs:122-126 | is a run of the process that polls every transaction woken; ready only when every transaction is sent |
| `Relays.Relay.Take` | bridge/src/bridge/deposit_relay.rs:127-130 | the checkpoint is yielded once |
| `Relays.Relay.Poll` | bridge/src/bridge/withdraw_relay.rs:118-262 | the loop of all three relays is a run of the process that touches no other relay, honest if the nodes are; its checkpoint becomes the held event, its failure halts, and it waits only when there is nothing more to do |
| `Process.Process.constructor` | bridge/src/bridge/mod.rs:71-128 | the assembled objects are the process started from its database |
| `Process.Process.PollRelay` | bridge/src/bridge/mod.rs:113-115 | one relay polled in place, the others keep their state although nonce cells are shared |
| `Process.Process.PollInOrder` | bridge/src/bridge/mod.rs:113-115 | polling the merged streams in any order is an honest run of the process; it ends with a saved checkpoint, an error, or every relay waiting |
| `Process.Process.FileNeverAhead` | bridge/src/bridge/mod.rs:47-67 | whatever has run, no checkpoint in the file is ahead of what the nodes have taken, and each transaction taken is the one for its own log |
| `Process.Process.Poll` | bridge/src/bridge/mod.rs:47-67 | after every poll, failed ones included, that holds for the file on disk |
| `CrashTolerance.CrashTolerantDeposits` | bridge/src/bridge/deposit_relay.rs:79-135 | any number of processes failing and restarting, dishonest validators, any execution order, fixed threshold: each order paid once iff that many distinct validators relayed it; paid orders were made on the home chain if fewer than the threshold are dishonest; every file is safe and every transaction taken the right one |
| `CrashTolerance.QuorumHasHonest` | truffle/contracts/ForeignBridge.sol:90-107 | a quorum larger than the dishonest set confirms only real deposits |
| `CrashTolerance.ReplayedConfirmation` | truffle/contracts/ForeignBridge.sol:94-95 | a confirmation executed again after a restart leaves the contract unchanged |
| `EndToEnd.RelayedSignersAreCollected` | truffle/contracts/libraries/helpers.sol:162-174 | the split signatures recover, in order, the validators that submitted them |
| `EndToEnd.RelayedQuorumIff` | truffle/contracts/libraries/helpers.sol:135-155 | for every run with changing validators: the home bridge accepts what is relayed iff enough signatures are and the first ones come from its validators |
| `EndToEnd.CollectImpliesWithdraw` | truffle/contracts/ForeignBridge.sol:115-145 | once collection is announced, everything the relayer asks for is held, and what it relays passes the home bridge's check in both forms |
| `EndToEnd.TakenWithdrawsPass` | bridge/src/bridge/withdraw_relay.rs:118-262 | in every reachable state of the relayer, every withdraw taken for a log that counts the threshold passes the home bridge's check |
| `EndToEnd.RelayedGasPriceAccepted` | contracts/bridge.sol:324 | the relayed gas price satisfies the guard, whoever sends |
| `EndToEnd.RelayedWithdrawPays` | truffle/contracts/HomeBridge.sol:71-90 | the relayed transaction pays the recipient named in the message exactly the value named there |
| `EndToEnd.RelayedChargingWithdrawPays` | contracts/bridge.sol:305-344 | on the fee-charging form it goes through iff cost <= value <= balance, and pays value less cost to the recipient and the cost to the sender |
| `EndToEnd.WithdrawalReachesRecipient` | truffle/contracts/HomeBridge.sol:71-90 | from the foreign log to the payment: what is relayed for the collection of the message a validator submits for a log pays the withdrawer of the log its amount and marks its transaction |
| `EndToEnd.OtherLengthIsStuck` | truffle/contracts/libraries/helpers.sol:128-141 | for every message of another length some signer's collection is announced and no signatures withdraw it |

## Left out

- RPC transport, timers, timeouts, tokio and futures internals: their answers are inputs, polling is interleaving.
- ECDSA, keccak and RLP signing: `ecrecover` is any function and `keccak256` an injective constructor.
- ABI encoding, event parsing and log filters: logs and payloads are structured values; that a log cannot be parsed is modelled.
- gas_price.rs, config.rs apart from the nonce cell, cli, app, deploy, chain_id: the gas price is any 64-bit number, the rest is start-up.
- `submitSignature` of contracts/bridge.sol: its counter is kept per sender and message, so it collects only for a threshold of one.
- truffle/contracts/token-contracts, Migrations, deployment scripts: not used by the modelled bridge.
- TOML grammar: only the line format that this program prints, followed by blank lines and comments; `Database.Parse` is a parser for that format.
- Database.LoadPrinted: loading is stated for that format, not for every TOML file with the same content.
- Torn writes: a save writes the whole text or fails before writing.
- EVM gas, call depth and ether forced into a contract; re-entry during the foreign payout (its gas stipend allows none).
- `mintingFinished`, which nothing sets, `transferOwnership`, `setMintAgent` as a method (it is a call of `Token.Exec`), and the gas limit storages.
- `approveAndCall` as a method: the callback runs other contracts, so it is modelled on values in `Token.Exec`, with arbitrary callbacks.
- Token.ApproveAndCallOnBridge: the caller is not the bridge itself, which never calls the token this way.
- Home.ChargingCompletesIff: receivers that do not call back; with calls back `Home.ReplaySafety` and `Home.ExactPayout` apply.
- Validators.StepKeepsWellFormed: the sender is not the zero address, which is the owner before initialization and cannot send.
- MapForeign.MapFormRefinesArrayForm: a token is set and the two payouts of a confirmation succeed or fail alike, since one pays tokens and the other ether; `MapForeign.DepositSimulates` needs neither.
- MapForeign.MapForeignBridge.Deposit: the token's `transfer` either pays or reverts; the source ignores its boolean result, so a token that returns false would still be announced, and a token that calls back into the bridge is not modelled.
- EndToEnd.CollectImpliesWithdraw: one unchanged validator set and threshold on both chains; `EndToEnd.RelayedQuorumIff` says what is needed when they change.
- The `HomeBridge` whose validator contract changes during a single quorum check: one call sees one answer.
- CrashTolerance.CrashTolerantDeposits: all processes start from the same checkpoints; a nonce used twice is not modelled on chain, which only makes more executions possible.
- The relays' jobs hold sender values rather than `NonceCheck` objects; the recorded balance is any balance.
- Pipeline.CheckpointNeverAhead: the process first starts from a file as this program saved it; `Database.SavesEatTail` is about other files.
- Liveness: that transactions are mined, or that a stuck relayer is restarted; `Rounds` is about rounds in which they are.
- Events of `BridgeValidators`, of the token and of `setTokenAddress`; the `Withdraw` event of the home bridge is the completion record of a withdraw.
