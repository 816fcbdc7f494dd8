# MSG client protocols: a verified model

MSG is a messaging and collaboration service with a command line client. This project models the
parts of it that must survive a crash between any two durable writes, the parsers with exact
formats, and one small simulation, and proves what they promise. A durable write is one atomic
old-or-new step, and a crash may come before or after any of them.

* **Agent Link** (`LinkSaga.dfy`, `LinkRecovery.dfy`, `LinkClient.dfy`, `LinkOverlap.dfy`,
  `LinkCross.dfy`, `LinkTerms.dfy`, `LinkOutcomes.dfy`): approving and revoking a link as a step machine with a program counter, over a
  local record, an invitation-bound grant file, an issuance journal and a server that maps request
  ids to grants. One step is one read, write or unlink of a file, or one remote call. A call is a
  process with its own copy of the record; the outside decides each reply, including lost ones, and
  when the call dies. `LinkClient` is the same code in place, proved equal to the machine;
  `LinkOverlap` lets any number of calls interleave. The server is assumed to replay a committed
  request id (or answer with a retryable error), and a definitive rejection to mean that nothing
  was committed.
* **Listener** (`Listener.dfy`): the resumable reader over an append-only log cut into arbitrary
  pages, with its checkpoint of cursor and unprinted rest.
* **Task channel** (`TaskChannel.dfy`, `TaskReading.dfy`, `TaskWorker.dfy`): the lifecycle chain rebuilt from an
  unordered listing, and the worker whose journal pins each predecessor before it writes.
* **Ciphertext containers** (`OpenPgp.dfy`, `Crc24.dfy`, `Crc24Remainder.dfy`, `Base64.dfy`,
  `Lines.dfy`, `Armor.dfy`, `ArmorForm.dfy`, `GpgMessage.dfy`, `AgeHeader.dfy`): packet framing, checksum, armor,
  canonical base64 and the age v1 header, each with a reference printer that the parser undoes.
* **Download and upload** (`Download.dfy`, `Upload.dfy`): the part file, its journal with a prefix
  digest, and the loop that fills the gaps of an upload. The hash is injective: a digest is
  modelled as what it was taken of.
* **Shelter** (`Shelter.dfy`, `ShelterRules.dfy`, `ShelterGame.dfy`): the simulation's state machine over real numbers,
  with an arbitrary unit vector for the heading and squares instead of square roots.
* **Account restore** (`AccountArchive.dfy`, `AccountDisk.dfy`, `AccountInstall.dfy`,
  `AccountRestore.dfy`, `AccountOutcome.dfy`): validation of a snapshot and the installation with a failure injected at
  any call.
* **Release sources** (`SourceSync.dfy`, `SourceDatabase.dfy`, `SourceRelease.dfy`): versioned rule sources synced over many releases.
* **Money** (`Money.dfy`): exact decimal text.

`Wrappers.dfy` and `Octets.dfy` hold what the others share. Where the source changes state step by
step there is a class or a method with loops, proved against a specification function about which
the lemmas speak. Each definition that decides something (which call is refused, which event
passes, which record may follow, who is struck, what a row demands) is also tied to plain terms by
an independent statement: `LinkTerms`, `LinkOutcomes`, `TaskReading`, `ShelterRules`, `ArmorForm`,
`AccountOutcome` and the `...Iff` and `...Plainly` lemmas.

Six promises hold only under a condition, which is proved exactly:

* At most one delegation per invitation needs approvals that do not overlap. Neither `approve` nor
  `revoke` takes a lock, and `LinkOverlap.OverlapSafeIff` says from which states overlapping calls,
  any number of them, stay safe: those with a grant file, or past the invited state.
* A revocation that overlaps an approval can end, recorded, while the delegation issued meanwhile
  stands, from all the other states and even if an issuance is journaled: `LinkCross.CrossSafeIff`.
* A committed delegation whose grant file is missing comes back by a retry only while the granted
  paths resolve as they did: `LinkRecovery.RetryRecovers`.
* A rollback of an installation misses a root when the failing call is the `stat` between its
  `mkdir` and the line that records it: `AccountRestore.Install` with `LeakPoint`.
* A task channel stays unambiguous only if a worker does not start a request while another one is
  journaled but not created (`TaskWorker.AbandonedForksIff`), and readable only up to 200 items,
  though a request that finds exactly 200 is admitted (`TaskWorker.LimitPassedIff`).
* A release that moves rules to other paths depends on the order of its sources, because the table
  keeps paths unique at every statement: `SourceRelease.AcceptedIff`, `SourceRelease.SwapRefused`.

## Model

| member | source | states |
|---|---|---|
| `LinkSaga.StepKeeps` | src/msg/client_link.py:383-424 | Every step of a lone approve or revoke (any reply, any crash point) keeps the invariant of record, grant file, journal and server: one delegation at most, a committed one locally recoverable, a revoked record with everything revoked. |
| `LinkSaga.CreateKeeps` | src/msg/client_delegated.py:130-136 | The issuing call keeps that invariant whether the reply arrives, is lost after or before the commit, or is a definitive rejection. |
| `LinkSaga.RevokeKeeps` | src/msg/client_link.py:539-543 | The remote revocation keeps it; a successful reply leaves no committed delegation unrevoked. |
| `LinkSaga.OneDelegation` | src/msg/client_link.py:358-424 | Over every sequence of approvals and revocations with crashes and lost replies anywhere: at most one committed delegation; once committed its grant is in the grant file or the journal holds the request id that replays it; a revoked record means all revoked. |
| `LinkSaga.RevokedIsFinal` | src/msg/client_link.py:365 | Once the record says revoked, no later history of approvals and revocations issues anything or changes the state back. |
| `LinkRecovery.RetryRecovers` | src/msg/client_delegated.py:104-137 | Retrying a lost issuance with the same join code and favourable replies ends approved with that very grant and nothing more committed if and only if the grant passes the checks of load_grant and, while the grant file is missing, the granted paths resolve to what the saved request id was drawn for; otherwise the retry fails, and in the latter case journal and grant file stay as they are. |
| `LinkRecovery.OtherIntention` | src/msg/client_delegated.py:120-123 | When the paths resolve to anything else, the saved request id is not reused and nothing changes. |
| `LinkRecovery.NeitherWay` | src/msg/client_link.py:532-538 | Where such a retry fails a revocation is refused too, and nothing changes. |
| `LinkRecovery.RevokeIff` | src/msg/client_link.py:532-549 | With favourable replies a revocation is recorded if and only if no issuance is uncertain and an unrecorded grant file passes its checks; otherwise nothing changes. |
| `LinkRecovery.ReplayIssuance` | src/msg/client_delegated.py:121-136 | From the resolution of the paths on, a saved request id replays the committed grant into the grant file and drops the journal. |
| `LinkOverlap.OverlapSafeIff` | src/msg/client_link.py:383-548 | Nothing locks the record: any number of overlapping approvals and revocations, in any interleaving of their single reads, writes and calls, keep to one delegation and to revocations that are true when recorded or reported, from exactly those worlds where a grant file exists or the record is no longer merely invited; from every other world two approvals can commit two delegations. |
| `LinkOverlap.RunClash` | src/msg/client_link.py:396-405 | The concrete interleaving from every such world: both pass the grant check, one issues completely, the other draws a second request id. |
| `LinkOverlap.HarmlessRun` | src/msg/client_link.py:396-418 | Calls, however many, that cannot reach the issuance section issue nothing, and no revocation among them claims too much. |
| `LinkCross.CrossSafeIff` | src/msg/client_link.py:531-549 | One approval and one revocation that overlap can leave a recorded, ended revocation beside an unrevoked delegation from exactly those worlds where the record is still invited and no grant file exists, whether an issuance is journaled or not, and from no other. |
| `LinkCross.RunMissed` | src/msg/client_link.py:531-548 | The concrete interleaving where nothing was approved yet: the revocation reads the record, the approval issues, the revocation saves and ends. |
| `LinkCross.RunLate` | src/msg/client_link.py:533-548 | The concrete interleaving where an attempt was pinned or journaled: the revocation finds no grant file, the approval issues and unlinks the journal, and then the revocation finds no journal, saves and ends. |
| `LinkClient.Owner.constructor` | src/msg/client_link.py:304-314 | A fresh invitation satisfies the invariant. |
| `LinkClient.Owner.CreateDelegation` | src/msg/client_delegated.py:104-137 | The journaled issuance in place, statement by statement, is the run of the step machine: saved request id reused only for the same intention, a new one made durable before the call. |
| `LinkClient.Owner.ApproveLink` | src/msg/client_link.py:358-437 | A whole approve for every script of replies and crash points equals the run of the step machine; another invite, grantor, service or pinned request, a revoked link, or given minutes outside 1 to 1440 hand out nothing and change nothing. |
| `LinkClient.Owner.RevokeLink` | src/msg/client_link.py:527-549 | A whole revoke equals the run of the step machine, and success means recorded as revoked with every committed delegation revoked. |
| `LinkClient.EndedRevoked` | src/msg/client_link.py:547-549 | A revoke that ends has left the record revoked and nothing standing. |
| `LinkClient.Serve` | src/msg/client_link.py:552-560 | Any number of calls by one owner, crashing anywhere, keep one delegation, recoverable, and revoked once so recorded. |
| `LinkTerms.RefusedIff` | src/msg/client_link.py:358-382 | For every world and approve call: with another invite, a revoked link, another grantor or service, minutes (the given ones, else the pinned ones, else the invitation's) outside 1 to 1440, or another pinned request or minutes, the run ends failed with the world unchanged; otherwise the first step is not a refusal. |
| `LinkTerms.RetryTerms` | src/msg/client_link.py:172-183 | A retry hands out the committed grant exactly if it is of this service, this owner and the pinned key and recipient, and the scope is the journal's while the grant file is missing. |
| `LinkTerms.RevokeTerms` | src/msg/client_link.py:527-549 | With favourable replies a revocation is recorded, with all revoked, exactly if the delegation is known, nothing was approved, the grant file belongs to the pinned request, or there is neither grant file nor journal. |
| `LinkTerms.ApprovalMeans` | src/msg/client_link.py:358-437 | After any history, what an approval hands out is the grant on disk, made for this service, owner and the very key and recipient of the approved code; the record is approved with its delegation and the approved minutes; tails taken first stay, and so does the approval once anything was issued. |
| `LinkOutcomes.FirstApproval` | src/msg/client_link.py:383-424 | A first approval reply by reply, with the whole world after it: failed mailboxes change nothing; unresolved paths or a definite refusal let the approval go with no journal; a lost answer keeps journal and approval; a grant that does not fit or an undelivered task hands out nothing, with the record at most issued; otherwise the grant is handed out and the record approved. |
| `LinkOutcomes.SentAgain` | src/msg/client_link.py:413-424 | An issued link whose task was not delivered is approved by the next call exactly if that call delivers it; otherwise nothing changes. |
| `LinkOutcomes.Withdraws` | src/msg/client_link.py:539-549 | The record says revoked only after the server confirmed and the mailboxes were archived; each other reply leaves it as it was. |
| `LinkOutcomes.Revocation` | src/msg/client_link.py:527-549 | Every world and what a revocation does with it: a known delegation is withdrawn, one that is only in a fitting grant file is recorded first, a foreign grant file or a journal alone ends the call with nothing changed, and what was never issued is revoked without the server. |
| `Listener.MatchingSplit` | src/msg/client_listener.py:200-207 | The filtered stream of two adjacent stretches is the filtered stream of the whole. |
| `Listener.MatchingMeans` | src/msg/client_listener.py:200-207 | The filtered stream of a stretch of the log is increasing, and a place of the stretch is in it exactly if no filter is given or the event has a kind that the filter names. |
| `Listener.StartableIff` | src/msg/client_listener.py:70-95 | Which options and checkpoint let a run start: limits of at least one, a page limit only in a single pass, no empty type, the binding and cursor of the checkpoint, and from now only without either. |
| `Listener.Reader.SeedCheckpoint` | src/msg/client_listener.py:106-114 | An existing checkpoint is never changed; a missing one is created at the given cursor. |
| `Listener.Reader.Read` | src/msg/client_listener.py:172-186 | Interruptions are retried, and nothing else is; the page is the log between the cursor and what the first page answered takes of the visible part, and says truly if more is left unless the answer claims otherwise. |
| `Listener.Reader.Refill` | src/msg/client_listener.py:193-199 | A page that claims more but does not move the cursor is refused, and only that or a refusal of the server; otherwise the position is unchanged. |
| `Listener.Reader.Drain` | src/msg/client_listener.py:200-210 | The inner loop writes exactly the matching pending events in order, saving after each; killed between print and save it is ahead of its checkpoint by exactly the printed event. |
| `Listener.Reader.Turn` | src/msg/client_listener.py:200-224 | One turn of the polling loop with the final save and the limits. |
| `Listener.Reader.Round` | src/msg/client_listener.py:193-224 | One round of the loop, a page and what follows from it: exact output, position, honest flag, and progress toward the end of what is visible. |
| `Listener.Reader.Poll` | src/msg/client_listener.py:193-224 | The polling loop: lines written are the matching events between start and end of the run, for any pages; a page limit is met exactly; a run that is no single pass ends only on its event limit. |
| `Listener.Reader.Attend` | src/msg/client_listener.py:130-224 | One run against the filtered stream: exact output, where the checkpoint resumes, what a crash repeats, limits met exactly; it starts exactly when options and checkpoint allow, and an honest single pass with answers enough finishes at the end or on its event limit. |
| `Listener.Reader.Listen` | src/msg/client_listener.py:130-224 | The same run on the log itself: the places added are increasing; a place between start and end is among them exactly if no filter is given or the event has a kind in the filter; each line is its place's event; when a run is refused, finishes, and what a crash leaves. |
| `Listener.CompleteStep` | src/msg/client_listener.py:193-211 | A run that starts where the checkpoint points keeps the stream complete and in order, whatever was printed ahead before. |
| `Listener.CompleteCrash` | src/msg/client_listener.py:203-208 | A crash between print and save puts exactly one event ahead and costs at most one repetition. |
| `Listener.RunAll` | src/msg/client_listener.py:129-224 | Over any sequence of runs on one checkpoint, crashes anywhere and runs from now among them: repetitions dropped, the lines are the filtered log from the origin on, nothing skipped, at most one surplus line per crash; none without crashes. A run from now moves the origin only while there is no checkpoint, and what had been printed until then is at most a line per crash. |
| `Listener.RunTakesShare` | src/msg/client_listener.py:209-210 | A finished honest run emits the smaller of its limit and what is waiting, and emitted plus waiting is conserved. |
| `Listener.TakeShare` | src/msg/client_listener.py:200-224 | One limited run takes exactly its share of what waits and leaves the rest; with answers enough it finishes. |
| `Listener.SplitRead` | src/msg/client_listener.py:193-224 | A crash-free read cut into limited runs, with any page sizes, prints what one unlimited run would, each run exactly its share; with answers enough all runs finish. |
| `TaskChannel.CandidateListed` | src/msg/client_agent_link.py:324-332 | The candidates are exactly the remaining records that pin the last event and are allowed in this state. |
| `TaskChannel.OrderIrrelevant` | src/msg/client_agent_link.py:321-344 | The status depends on which records are listed (as a multiset), not on their order. |
| `TaskChannel.ChainsComparable` | src/msg/client_agent_link.py:333-336 | For more records the chain grows, or is cut back by a reported fork; an ambiguous listing stays ambiguous; a delivered chain is final. |
| `TaskChannel.ChainIsLinked` | src/msg/client_agent_link.py:337-344 | Every event of the chain is allowed where it stands and pins its predecessor; artifacts and state are the last event's; chain and remainder add up. |
| `TaskChannel.ReportedShape` | src/msg/client_agent_link.py:321-357 | Every reported chain is one accept, then progress, then at most one deliver at its end, made of listed records, and its state says which. |
| `TaskChannel.Collect` | src/msg/client_agent_link.py:261-316 | The listing loop keeps the sound records in order, counts the rest, and refuses more than 200 items. |
| `TaskChannel.Next` | src/msg/client_agent_link.py:324-332 | The comprehension computes the candidates. |
| `TaskChannel.Get` | src/msg/client_agent_link.py:247-357 | The chain loop returns exactly the report specified for the listing, or refuses it beyond 200 items. |
| `TaskReading.LifecycleReported` | src/msg/client_agent_link.py:321-357 | For every chain of one accept, then progress, then at most one delivery, each pinning the one before: any listing of exactly these records, counted item by item, within 200 items, is reported in full and in order, unambiguous, with only other items ignored; delivered, with the artifacts of the last record, exactly if that is a delivery. |
| `TaskReading.ForkReported` | src/msg/client_agent_link.py:333-336 | A listing with two records that may both follow the last one is ambiguous. |
| `TaskReading.LongListingRefused` | src/msg/client_agent_link.py:262-263 | A listing is refused exactly if it has more than 200 items. |
| `TaskWorker.LinearReads` | src/msg/client_agent_link.py:321-344 | A linear channel reads back as itself, unambiguous, with nothing left over. |
| `TaskWorker.ForkReads` | src/msg/client_agent_link.py:333-336 | Two successors of the last event make the channel ambiguous. |
| `TaskWorker.AttemptOrderly` | src/msg/client_agent_link.py:488-521 | A disciplined call, dying anywhere, keeps the channel linear and every open journal entry pinned to the last record. |
| `TaskWorker.AttemptAdds` | src/msg/client_agent_link.py:363-393 | A call appends at most the one record of its own request id. |
| `TaskWorker.WorkOrderly` | src/msg/client_agent_link.py:488-521 | Jobs finished one before the next leave the committed ids in job order. |
| `TaskWorker.FinishBeforeNext` | src/msg/client_agent_link.py:247-357 | Over any crashes and retries of such a worker: exactly one record per committed request id with that request's content; however listed, get reports all of them in order, no fork and nothing of this task ignored, if and only if the channel holds at most 200 items, and refuses otherwise. |
| `TaskWorker.LimitPassedIff` | src/msg/client_agent_link.py:262-263 | A new request that is admitted pushes the channel beyond the limit exactly when it finds 200 items there; from then on get refuses whatever is done. |
| `TaskWorker.LimitPassed` | src/msg/client_agent_link.py:490-500 | The concrete case: 200 other items, one acceptance, and get refuses. |
| `TaskWorker.AbandonedForksIff` | src/msg/client_agent_link.py:490-500 | Starting another request while one is pending, and retrying it later, makes the channel ambiguous if and only if the pending one was journaled but not created. |
| `TaskWorker.Worker.Send` | src/msg/client_agent_link.py:459-521 | The call in place: equal to the specified attempt for every listing order; in plain terms, a saved entry of another intention is refused, a new one pins the last event that get reports and is admitted exactly by its state, and the one record created has the kind, the pin and, for a delivery only, the artifacts of the request. |
| `OpenPgp.LengthAt` | src/msg/client_backup_remote.py:206-219 | Reads one new-format length at an offset and advances strictly. |
| `OpenPgp.NewBodyAt` | src/msg/client_backup_remote.py:204-223 | The loop over partial chunks computes the specified body and a strictly larger offset. |
| `OpenPgp.PgpPacket` | src/msg/client_backup_remote.py:199-230 | Tag, body and end offset at any offset are those of the packet grammar; the offset strictly advances. |
| `OpenPgp.ParsePrintBody` | src/msg/client_backup_remote.py:205-223 | Any split of a body into power-of-two partial chunks and a final length reads back as the body. |
| `OpenPgp.ParsePrintPacket` | src/msg/client_backup_remote.py:199-230 | For every tag, body and legal length form of section 4.2 of RFC 4880, the printed packet followed by anything reads back as that tag, body and rest. |
| `OpenPgp.BodyIsPrinted` | src/msg/client_backup_remote.py:205-223 | Every accepted body is some printed body. |
| `OpenPgp.PacketIsPrinted` | src/msg/client_backup_remote.py:199-230 | Every accepted packet is a printed packet of a legal form. |
| `OpenPgp.GpgContainer` | src/msg/client_backup_remote.py:236-255 | The packet loop decides the message grammar. |
| `OpenPgp.ContainerIff` | src/msg/client_backup_remote.py:233-255 | Accepted input is exactly a printed sequence of 1 to 128 session-key packets and one final protected data packet. |
| `OpenPgp.MessageIff` | src/msg/client_backup_remote.py:236-255 | The same in plain numbers: 1 to 128 packets of tag 1 (ten octets, version 3 or 6) or tag 3 (four octets, version 4 to 6), then one of at least 33 octets, tag 18 in version 1 or 2 or tag 20 in version 1. |
| `OpenPgp.OldFrames` | src/msg/client_backup_remote.py:224-230 | Every body in an old-format packet with one, two or four big-endian length octets, written out, is read back. |
| `OpenPgp.NewFrames` | src/msg/client_backup_remote.py:204-223 | Every body in a new-format packet with one, two or five length octets, written out (section 4.2.2 of RFC 4880), is read back. |
| `GpgMessage.Accepts` | src/msg/client_backup_remote.py:233-255 | Binary or armored input is decided as specified. |
| `GpgMessage.PrintedMessage` | src/msg/client_backup_remote.py:233-255 | Every such message is accepted in binary, and in armor exactly when its checksum is absent or its own. |
| `GpgMessage.AcceptedIff` | src/msg/client_backup_remote.py:233-255 | Data is accepted exactly if it is such a message, or starts with the label and its lines armor one. |
| `Crc24.Checksum` | src/msg/client_backup_remote.py:155-163 | The loop computes the folded register, which stays within 24 bits. |
| `Crc24.ShiftLinear` | src/msg/client_backup_remote.py:159-162 | One shift of the register is linear over exclusive or. |
| `Crc24.FoldBijective` | src/msg/client_backup_remote.py:155-163 | Absorbing any data is a bijection on registers: each register is reached, from exactly one. |
| `Crc24.FoldThree` | src/msg/client_backup_remote.py:156-162 | Absorbing three octets is adding them to the register and shifting 24 times. |
| `Crc24.CrcRegister` | src/msg/client_backup_remote.py:155-163 | The checksum is a 24-bit value, so the final mask changes nothing. |
| `Crc24.ResidueIff` | src/msg/client_backup_remote.py:155-163 | Appending three octets leaves residue zero if and only if they are the checksum. |
| `Crc24.BurstDetected` | src/msg/client_backup_remote.py:155-163 | Any change confined to three consecutive octets changes the checksum. |
| `Crc24.CheckValue` | src/msg/client_backup_remote.py:155-163 | The checksum of the nine digits 123456789 is 0x21CF02, and that of nothing 0xB704CE. |
| `Crc24Remainder.RunDivides` | src/msg/client_backup_remote.py:156-162 | The register after a message is a remainder of polynomial division by 0x1864CFB over GF(2), from 0xB704CE. |
| `Crc24Remainder.RemainderUnique` | src/msg/client_backup_remote.py:156-162 | Quotient and remainder of that division are unique. |
| `Crc24Remainder.FoldIsBits` | src/msg/client_backup_remote.py:157-162 | The octet loop is the bit-by-bit division of the message's bits. |
| `Crc24Remainder.CrcIsRemainder` | src/msg/client_backup_remote.py:155-163 | The checksum is the remainder, and nothing else is (section 6.1 of RFC 4880). |
| `Base64.DecodeEncode` | src/msg/client_backup_remote.py:115-127 | Decoding undoes encoding (section 3.5 of RFC 4648). |
| `Base64.EncodedShape` | src/msg/client_backup_remote.py:122-125 | The encoding is groups of symbols with the right number of pads at the end only. |
| `Base64.StripThenPad` | src/msg/client_backup_remote.py:117-119 | Stripped pads are exactly those the parser adds back. |
| `Base64.ParseIff` | src/msg/client_backup_remote.py:115-127 | With or without padding, the parser accepts exactly the encoder's image and returns its preimage. |
| `Base64.AlphabetEnds` | src/msg/client_backup_remote.py:115-127 | The first and last symbols of each range of the alphabet. |
| `Lines.SplitUnlines` | src/msg/client_backup_remote.py:132 | Plain lines joined with either line end come back by normalising and splitting. |
| `Armor.PopBlankLines` | src/msg/client_backup_remote.py:133-134 | Trailing empty lines are dropped. |
| `Armor.PopHeaders` | src/msg/client_backup_remote.py:138-144 | Header lines are checked and dropped up to the empty line. |
| `Armor.Read` | src/msg/client_backup_remote.py:130-164 | The reader computes the specified unarmoring. |
| `Armor.UnarmorPrinted` | src/msg/client_backup_remote.py:130-164 | The 64-column armor of data, LF or CRLF, with or without headers and trailing blank lines, reads back as the data exactly when it is not empty and a supplied checksum is its own (section 6.2 of RFC 4880). |
| `Armor.TamperedRefused` | src/msg/client_backup_remote.py:155-163 | Armor whose data was changed within three consecutive octets is refused by its old checksum. |
| `ArmorForm.UnarmorIff` | src/msg/client_backup_remote.py:130-164 | Armor is accepted, as the encoding of some content, exactly if its lines without the blank ones at the end are the label, for PGP headers and a blank line, payload lines of 1 to 64 octets that encode the content, for PGP at most one line with its checksum, and the end label. |
| `ArmorForm.HeaderLineIff` | src/msg/client_backup_remote.py:138-144 | A header line is a letter and letters, digits or dashes, a colon, a space and printable text. |
| `ArmorForm.DigitsChecksum` | src/msg/client_backup_remote.py:155-163 | The checksum octets of the nine digits are 21 CF 02, the high octet first. |
| `AgeHeader.FindLine` | src/msg/client_backup_remote.py:173-175 | The next line feed before octet 65536, or none. |
| `AgeHeader.BodyAt` | src/msg/client_backup_remote.py:187-195 | The inner loop reads a stanza body of full lines and a final short one, and advances strictly. |
| `AgeHeader.BinaryContainer` | src/msg/client_backup_remote.py:170-196 | The nested loops decide the header grammar and terminate. |
| `AgeHeader.AgeContainer` | src/msg/client_backup_remote.py:167-196 | Binary or armored input is decided as specified. |
| `AgeHeader.HeaderIff` | src/msg/client_backup_remote.py:167-196 | A header parses as given stanzas, MAC and payload if and only if the input is their printed form within the limits (1 to 128 stanzas, newlines below 65536, 32 payload octets): so the decomposition is unique. |
| `AgeHeader.StanzaLineIff` | src/msg/client_backup_remote.py:181-184 | A stanza line is the arrow and one or more visible arguments with single spaces between them. |
| `AgeHeader.BodyColumns` | src/msg/client_backup_remote.py:187-195 | A stanza body stands in full lines of 64 octets and one shorter line, maybe empty. |
| `AgeHeader.AcceptedIff` | src/msg/client_backup_remote.py:167-196 | Data is accepted exactly if it is a printed header of 1 to 128 such stanzas and a MAC of 32 octets, within 65536 octets, with at least 32 octets of payload, or lines that armor that. |
| `AgeHeader.PrintedContainer` | src/msg/client_backup_remote.py:167-196 | Every valid header with its payload is accepted in binary and in armor. |
| `Download.Receiver.Fetch` | src/msg/client.py:1320-1340 | The piece loop: the journal always describes the synced prefix, true answers keep it a prefix of the source, a crash leaves only junk beyond it. |
| `Download.Receiver.Taken` | src/msg/client.py:1321-1333 | A piece is taken exactly if it is as long as asked for and has the digest that came with it. |
| `Download.Receiver.CheckPrefix` | src/msg/client.py:1302-1314 | The prefix is accepted if and only if nothing was counted yet or its digest is the journal's. |
| `Download.Receiver.Publish` | src/msg/client.py:1342-1345 | Link, then part file, then journal; a crash in between leaves the whole target or none. |
| `Download.Receiver.Resume` | src/msg/client.py:1300-1351 | From a journal and a free target: success means the announced content; a tampered prefix is refused with nothing changed; under favourable conditions success if and only if the prefix is resumable. |
| `Download.Receiver.Proceed` | src/msg/client.py:1261-1351 | One run with any crash, answers and interference, in the terms of the specification: an existing target is never replaced, the transfer is never exchanged, and success means the target holds the announced content. |
| `Download.Receiver.Run` | src/msg/client.py:1261-1351 | The same in plain terms: success means that the target hashes to the announced digest; a prefix that is missing, short or hashes otherwise is refused with nothing changed; a journal always hashes its prefix; and with true answers, no interference and a journal of this source the target becomes the source. |
| `Download.RunAll` | src/msg/client.py:1261-1351 | Across any crashed and resumed runs: the journal describes the durable prefix, honest undisturbed runs keep it the source's, success means target equals source. |
| `Download.WrongPieceSticks` | src/msg/client.py:1341 | Once a wrong piece is journaled no later run of the transfer succeeds. |
| `Upload.Transfer.FillGap` | src/msg/client.py:1232-1248 | One gap is put in pieces within the limit; exactly its positions change, to the file's octets; it fails only where the file ends inside it. |
| `Upload.Transfer.FillGaps` | src/msg/client.py:1232-1248 | After all gaps of a page the server misses none of them and nothing else changed. |
| `Shelter.StepBound` | examples/lightjunction-ascii/scene.js:236 | A step of length s moves a player within distance r to within r + s. |
| `Shelter.MovedKeeps` | examples/lightjunction-ascii/scene.js:81-90 | A short step keeps to the walls and changes rooms only through an open door with angle at least 1.3. |
| `Shelter.WavePermanent` | examples/lightjunction-ascii/scene.js:237 | The wave at 5.8 outruns any player at 3.3 or less: once it has passed it has passed for good. |
| `Shelter.TooLateForRoom` | examples/lightjunction-ascii/scene.js:237-239 | Nobody who was not struck earlier is in the room at t = 28 or later. |
| `Shelter.StruckKeeps` | examples/lightjunction-ascii/scene.js:237-241 | The strike makes a survivor only in the closed room, and aftermath only of a survivor from t = 28. |
| `Shelter.StanceKeeps` | examples/lightjunction-ascii/scene.js:217-219 | Sitting down teleports only from near the chair, never out of the room or the aftermath. |
| `Shelter.NextKeeps` | examples/lightjunction-ascii/scene.js:202-245 | Every event keeps the invariant and every frame ends safe. |
| `Shelter.SurvivorIsSheltered` | examples/lightjunction-ascii/scene.js:226-245 | In every run, at the end of every frame a survivor who is not dead is in the aftermath, or in the room with the door closed (angle at most .04) before t = 28. |
| `Shelter.NobodyEscapesTheWave` | examples/lightjunction-ascii/scene.js:226-245 | In every run a frame ending at t >= 33.7 leaves the player dead, or a survivor in the aftermath. |
| `Shelter.DoorAndWalls` | examples/lightjunction-ascii/scene.js:81-90 | In every run the room implies its walls, and the room flag changes only by a frame with the door open at least 1.3, or by a restart. |
| `ShelterRules.Fate` | examples/lightjunction-ascii/scene.js:226-245 | A living player dies in a frame exactly if after swing and step t >= 11, the squared reach (t - 11) * 5.8 is at least the squared distance to the flash, and the player is neither behind the shut door nor a survivor at t >= 28; behind it before t = 28 the player survives. |
| `ShelterRules.DeadWait` | examples/lightjunction-ascii/scene.js:231 | Six seconds after a death everything starts again, and until then only the clock and the door move. |
| `ShelterRules.DoorSwings` | examples/lightjunction-ascii/scene.js:229 | The door swings toward open or shut by nine times the remaining angle a second, never past it. |
| `ShelterRules.MovedIff` | examples/lightjunction-ascii/scene.js:81-90 | Which steps are taken, and which of them change rooms, with every bound written out. |
| `ShelterRules.FrameMoves` | examples/lightjunction-ascii/scene.js:234-236 | A heading moves a ready player, standing, by 2.5 or 3.3 a second, if the step is taken at all. |
| `ShelterRules.DoorToggledIff` | examples/lightjunction-ascii/scene.js:221 | The door changes exactly for a live, ready player within 1.5 of it, in the room, on the stairs, or low enough in the aftermath. |
| `ShelterRules.StanceToggledIff` | examples/lightjunction-ascii/scene.js:217-219 | Standing up is always open to a ready player; sitting down only before the aftermath, within 1.4 of the chair. |
| `ShelterRules.StairsJoin` | examples/lightjunction-ascii/scene.js:75-79 | The stairs lead evenly from the street down to the floor of the room. |
| `ShelterRules.SomebodySurvives` | examples/lightjunction-ascii/scene.js:202-245 | There is a run from the start, to the shelter, shut in, and out again, that ends in the aftermath alive. |
| `ShelterGame.Game.Advance` | examples/lightjunction-ascii/scene.js:226-245 | A frame in place is the specified frame, keeps the invariant and ends safe; in plain numbers, who dies, who survives and who reaches the aftermath in it. |
| `ShelterGame.Game.ToggleDoor` | examples/lightjunction-ascii/scene.js:221 | The door in place changes exactly when the player may reach it, and the invariant is kept. |
| `ShelterGame.Game.ToggleStance` | examples/lightjunction-ascii/scene.js:217-219 | Standing up keeps the place; sitting down goes to the chair, only from near it; the invariant is kept. |
| `AccountArchive.JoinSplit` | src/msg/client_account_backup.py:477 | Splitting at slashes loses nothing. |
| `AccountArchive.RelativeIff` | src/msg/client_account_backup.py:470-482 | The accepted names are exactly the spellings, of at most 512 characters, of safe paths in the three scopes, each of one path. |
| `AccountArchive.RelativePlainly` | src/msg/client_account_backup.py:470-482 | A name is accepted as its parts exactly if they are 1 to 12, joined by slashes into at most 512 characters, the first a scope, and none empty, a dot, two dots or cache, or with a slash, backslash or NUL in it. |
| `AccountArchive.AdmissibleIff` | src/msg/client_account_backup.py:517-557 | A snapshot is admissible exactly if it has at most 2048 entries, directories that are accepted, distinct and in listed ones with the three scopes among them, and files that are sound, distinct and at most 16 MiB in all. |
| `AccountArchive.ParentPath` | src/msg/client_account_backup.py:529-531 | The parent name of an accepted name is accepted and names the path without its last part. |
| `AccountArchive.CollectDirectories` | src/msg/client_account_backup.py:523-531 | The directory loop accepts if and only if names are accepted, distinct and closed under parents. |
| `AccountArchive.CollectFiles` | src/msg/client_account_backup.py:532-550 | The file loop accepts if and only if every entry is sound, names are distinct and the total fits, and keeps the contents. |
| `AccountArchive.Validate` | src/msg/client_account_backup.py:517-557 | Accepts exactly the admissible snapshots. |
| `AccountDisk.Disk.OpenWay` | src/msg/client_account_backup.py:85-106 | Opening with creation adds only directories on the way, and succeeds if and only if no file stands there and no call fails. |
| `AccountDisk.Disk.MakeRoot` | src/msg/client_account_backup.py:588-604 | One root: which injected failure leaves it absent, made but unrecorded, or recorded, each as an interval of the calls that succeed, and when it is opened. |
| `AccountDisk.Disk.RemoveContents` | src/msg/client_account_backup.py:560-582 | Everything strictly inside the directory is removed and nothing else. |
| `AccountInstall.StillFree` | src/msg/client_account_backup.py:588-604 | Making the other roots neither frees nor blocks one. |
| `AccountInstall.MakeRoots` | src/msg/client_account_backup.py:588-604 | The roots loop on any tree: all three exactly when all are free and no call fails; a root is leaked exactly when the failing call is the stat after its mkdir and it and the roots before it are free. |
| `AccountInstall.LoppedGrown` | src/msg/client_account_backup.py:637-652 | Removing a root that was made here undoes it and nothing else. |
| `AccountInstall.Cleanup` | src/msg/client_account_backup.py:635-658 | The cleanup removes every recorded root and nothing that was there before. |
| `AccountRestore.PlaceInjective` | src/msg/client_account_backup.py:605-617 | Different relative paths are installed at different places. |
| `AccountRestore.PrefixThere` | src/msg/client_account_backup.py:605-617 | Because of the closure check and the sort by depth each mkdir finds its parent. |
| `AccountRestore.MakeDirs` | src/msg/client_account_backup.py:605-619 | The directory loop adds exactly the listed directories and fails only if a call is made to fail. |
| `AccountRestore.MakeFiles` | src/msg/client_account_backup.py:620-632 | The file loop adds exactly the files with their contents. |
| `AccountRestore.Install` | src/msg/client_account_backup.py:585-660 | With a failure injected at any call, on any tree: it succeeds if and only if the three places are free and all calls that are counted succeed, and then leaves the validated tree; failure leaves what was there, no root, and at most the ways to them, except for one root, leaked if and only if the failing call is the stat after its mkdir and it and the roots before it are free. |
| `AccountRestore.SortByDepth` | src/msg/client_account_backup.py:605 | The sort puts every directory behind the shallower ones. |
| `AccountRestore.Restore` | src/msg/client_account_backup.py:716-719 | Validation, sort and installation in one: what is not admissible touches nothing; what is admissible is installed exactly if the places are free and no call fails. |
| `AccountRestore.RestoredContents` | src/msg/client_account_backup.py:620-632 | After a restore every file of the snapshot stands at its place with its own contents. |
| `AccountRestore.RolledBack` | src/msg/client_account_backup.py:635-658 | After a clean rollback no root is left, nothing is lost, and anything new is a directory on the way to a root. |
| `AccountRestore.InstalledExactly` | src/msg/client_account_backup.py:605-632 | After success each root holds exactly the validated directories and files. |
| `AccountRestore.InstalledContents` | src/msg/client_account_backup.py:620-632 | Every validated file is there with its own contents. |
| `AccountRestore.AdmissibleOrdered` | src/msg/client_account_backup.py:523-531 | What validation admits, sorted by depth, is what the directory loop needs. |
| `AccountRestore.AdmissibleFits` | src/msg/client_account_backup.py:540-546 | What validation admits is what the file loop needs. |
| `AccountRestore.PlaceOf` | src/msg/client_account_backup.py:605-617 | The scopes config, data and state are installed in the first, second and third root. |
| `AccountOutcome.RestoreAccount` | src/msg/client_account_backup.py:585-719 | A restore in plain terms: nothing that was there is gone or changed, however it ends; after a success every name is at its home, directory or file with contents, and only the ways are new besides; after a failure only ways are new, and a home itself only if the one call failed that follows its making; without failing calls it succeeds exactly for a sound snapshot and vacant homes. |
| `SourceSync.SyncOneKeeps` | src/msg/bootstrap.py:364-456 | One accepted source keeps row, resource and history in agreement. |
| `SourceSync.SyncAllIff` | src/msg/bootstrap.py:364-456 | The sources are accepted if and only if each is acceptable to the store before the sync and whoever holds its path then is moved by a source before it (paths are UNIQUE in the table, src/msg/storage/sqlite.py:192). |
| `SourceSync.VacantIff` | src/msg/bootstrap.py:399-456 | At its turn a source finds its path free exactly when every earlier holder has been moved. |
| `SourceRelease.OrderDecides` | src/msg/bootstrap.py:390-404 | When one rule moves to where another moves away from, one order of the two is accepted and the other refused. |
| `SourceSync.SyncKeeps` | src/msg/bootstrap.py:125-482 | Every accepted release keeps the store coherent: no two rows share a path, and each row's revision is the resource's and the last of the history. |
| `SourceRelease.SyncShips` | src/msg/bootstrap.py:381-406 | For a shipped rule the history is unchanged exactly when the digest is, else one newer version longer; equal versions mean equal digests and conversely; a retired row is never shipped again. |
| `SourceRelease.RetiredStays` | src/msg/bootstrap.py:458-475 | A rule retired by this release or before keeps its history and stays retired and archived. |
| `SourceRelease.HistoryGrows` | src/msg/bootstrap.py:434-456 | A history is only ever extended, by at most one revision per release. |
| `SourceRelease.SyncTwice` | src/msg/bootstrap.py:396-405 | Syncing the same release again is accepted and changes nothing at all. |
| `SourceRelease.AcceptedIff` | src/msg/bootstrap.py:271-478 | A release is accepted exactly under conditions that can be read off the store before the sync: retirements pinned, every rule of the store known, each source acceptable and its path free at its turn. |
| `SourceRelease.AcceptedPlainly` | src/msg/bootstrap.py:271-478 | The same for every store with distinct paths, demand by demand: the inventory, the pins, and for each source its row released and its own, its resource in the prescribed form and pointing to the row's revision, its move declared, the same version with the same digest or else a larger one, and its path free in turn. |
| `SourceRelease.MovesDeclared` | src/msg/bootstrap.py:390-395 | An accepted release moves a rule from path p to another path q only if its migrations say (p, q). |
| `SourceRelease.ReleaseMeans` | src/msg/bootstrap.py:363-482 | After an accepted release what it ships stands there with its path, version and digest, what it retires is retired and archived, and no other rule appeared. |
| `SourceRelease.TangleRefused` | src/msg/bootstrap.py:390-404 | However declared, rules cannot exchange paths, two of them or more in a ring, in any order. |
| `SourceRelease.TakenRefused` | src/msg/bootstrap.py:390-404 | No source can take the path of a rule that the release retires or does not ship. |
| `SourceRelease.SwapRefused` | src/msg/bootstrap.py:390-404 | The concrete swap of two paths with both moves declared passes every other check and is refused. |
| `SourceRelease.UpgradedGrows` | src/msg/bootstrap.py:363-482 | Over any sequence of releases histories only grow and retired rules stay as they are. |
| `SourceRelease.VersionsRise` | src/msg/bootstrap.py:395-406 | Over every sequence of releases versions rise strictly along a rule's history, no digest recurs, and row and resource point to its last revision. |
| `SourceDatabase.Database.Apply` | src/msg/bootstrap.py:364-456 | One source in place equals the specified step, refused by the table where another row holds the path that is written. |
| `SourceDatabase.Database.SyncRelease` | src/msg/bootstrap.py:363-482 | A whole release in place, all or nothing; accepted exactly under the demands written out; every move declared; what it ships and retires stands there so. |
| `Money.AmountOfDisplay` | src/msg/client_money.py:8-27 | amount_minor(display_amount(m, s), s) == m for 0 < m <= 2^63 - 1 and 0 <= s <= 18. |
| `Money.AcceptedForm` | src/msg/client_money.py:8-20 | An accepted text is the printed amount between zeros that mean nothing. |
| `Money.AmountIff` | src/msg/client_money.py:8-27 | The texts read as an amount are exactly its padded printed forms within the length and precision limits. |
| `Money.DisplayShortest` | src/msg/client_money.py:23-27 | The printed text is the unique shortest text read as that amount. |
| `Money.NegativeRefused` | src/msg/client_money.py:25-27 | A negative balance prints with a sign that the parser refuses. |
| `Money.AmountRange` | src/msg/client_money.py:8-20 | An accepted text has 1 to 80 digits and points, a scale of 0 to 18, and an amount of 1 to 2^63 - 1. |

## Left out

- Network, HTTP, TLS, signing, age subprocesses and terminal control: calls with no logic of their own; their outcomes are inputs here.
- File permissions, symbolic links and no-follow checks: only existence and contents are modelled.
- Agent Link `invite`, `join` and `accept`, the texts they print, and the listener seeding at the end of `approve`: straight-line code around the modelled part.
- LinkSaga: a call that reached the server is taken to commit before its reply is observed or lost; a request still travelling after a definitive rejection of the same id is not modelled.
- LinkSaga: the mailbox calls of one stage (creating and reading two tails, archiving two) are one step; they touch no delegation, record, journal or grant file.
- LinkSaga: failures other than the client's own error type (a crash of the interpreter, a full disk) end a call where it stands, like any crash.
- Listener without a checkpoint file, the retry delays and the JSON text of a line: the model prints events as values.
- Listener.Reader.Read: cursors are positions in the log, so a source that answers with a cursor it never issued, or with events that are not its log's, is not modelled.
- TaskChannel.Collect: the checks that make a single listed record sound (author, revision, expiry, JSON) are one classification per item; paging by cursor is folded into the list of items.
- TaskWorker: resource ids are new for every record, and only this worker writes records that `get` takes as sound; a record that reaches the server after the invitation's expiry is left aside.
- Armor: labels other than the two in use, and the outer size limit of an encrypted backup.
- AgeHeader: what follows the header (the encrypted payload) is only counted.
- Download: the choice of the journal's name, an explicitly given transfer id, and a target whose parent directory is missing.
- Download.Receiver.Run: a source that changes its announced digest within one transfer is refused at the end, as in the source; nothing is said about how such a server behaves.
- Upload: what the server keeps of a put is this model's own assumption (`Upload.Stored`); the client's code only sends it.
- Upload: sealing and the status loop around the gap loop.
- Shelter: camera, drawing, pointer lock, coffee, pausing and the page's visibility (one flag on the commands); the crater terrain is an input; floating-point rounding is not modelled.
- AccountArchive.Validate: the header fields of a snapshot, the base64 text of a file (its decoded value is an input) and the identity found in `client.json`.
- AccountArchive: a backup followed by a restore is not claimed to be a round trip, since a snapshot may hold names that `_relative` refuses.
- AccountRestore.Install: calls made by the cleanup itself do not fail, and nobody else changes the tree meanwhile.
- AccountRestore.Install: a file whose writing fails is taken back by `_write_new`, which is one call here.
- SourceSync: reading the release's files, dependencies between rules, the two rules that may not be retired, the two fixed topics, and the contents of blobs; revision ids are taken to be as good as the digest they are cut from.
- SourceSync: changes to the store by anything other than a sync.
- Money: the wallet commands around the two functions.
- Token recovery, OAuth refresh, custody and key rotation of the client, account selection and the command line: outside these protocols.
