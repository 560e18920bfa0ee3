# Cabinet: a verified model of its backup key, throttles, sign-in, logs, imports and archives

This project models, in Dafny, the parts of Cabinet's backend whose correctness is not
visible in any one function body, and proves what they keep over every input and every run.

* **Backup key** (`Checksum`, `Polynomials`, `Regroup`, `Bech32`, `Bech32Code`, `KeyFile`,
  `KeyFileLines`, `BackupKey`). The Bech32 text of `archive_keys.py`: its checksum register as
  30-bit words, its 8/5-bit regrouping as numbers, the encoder and decoder, the key file printed and
  parsed, and archives signed and verified across rotations.
* **Throttles** (`OrderedDicts`, `Buckets`, `Windows`, `Throttle`, `ThrottleHistory`, `Crowding`,
  `ThrottleApart`, `ThrottleBounds`, `ThrottleAnswers`, `AddressBound`). The three bounded maps and
  three sliding windows of `throttle.py` as one class, a refinement against the plain history of
  failures, what share and single sign-on calls can change for a sign-in, and the bounds on guesses
  that follow. `Devices`, `Notify` and `Replay` model the known-device row, the burst alerts and the
  single sign-on replay memory.
* **Sign-in** (`SignIn`, `SignInAnswers`, `ConfigAnswers`, `Accounts`, `WaysIn`, `WaysOut`,
  `SessionLife`, `SessionRuns`, `Pruning`). Users, sessions, identities, providers and switches,
  with one transition for each committed transaction; `Accounts` has the same transactions as
  methods that change the tables.
* **Logs** (`Audit`, `Sampler`). The capped audit table against the whole history, and the sampled
  lines against the events they stand for.
* **Collection files** (`Importing`, `ImportAnswers`, `Reimport`, `Serials`, `SerialForms`,
  `Calendar`, `Stamps`, `Retention`). Fingerprint keys and re-imports, patterns of serial numbers
  and the stored text they are filtered by, and the archives that pruning deletes.

Each class method is proved equal to a function on values; the properties are lemmas about those
functions, over whole runs where the property is about runs. What a function answers is stated a
second time without it, over the rows, the texts or the history it is about: the modules named after
answers, `Polynomials`, `Bech32Code`, `KeyFileLines` and `SerialForms` are such statements. Locks
and transactions are atomic steps, times are whole milliseconds (microseconds in `Retention`) and
never go backwards across the steps of one run.

Some promises do not hold as one might state them, and the exact condition is proved instead.

* `free + 5 + T/60` guesses in T seconds bounds every run of a bucket if and only if `free` is at
  most 10 (`Buckets.SixtySecondBoundExactly`). For an address, which has 20 free, it bounds every
  span of T if and only if T is less than 901 seconds (`AddressBound.AddressBoundExactly`);
  `25 + T/37` always holds.
* Share and single sign-on calls have maps of their own, but `wait` looks at the reset flag for
  them too. They leave every sign-in answer as if they had not been if and only if each such look
  finds the flag as last noted (`ThrottleApart.SignInAnswersUnchangedExactly`). A callback whose
  look is the first of the process turns the owner's wait after `reset-password` from a second
  into none (`ThrottleApart.CallbackUndoesWait`).
* A map's waits are the ones the whole history says, in every run and for every key, if at most n
  other keys of the map failed since the key's last failure and between any two it remembers: this
  holds if and only if n is less than 10,000 (`Crowding.HistoryDecidesExactly`). With 5,000
  sign-ins of other accounts between the fourth and the fifth wrong password of a known device, the
  owner is let through where the history says a second (`Crowding.CrowdedOutExactly`).
* An archive verifies as its signer's if and only if the signer is the one identity of its
  recipient in the key file (`BackupKey.RotationStrandsExactly`).

## Model

| member | source | states |
|---|---|---|
| `Checksum.Polymod` | backend/app/services/archive_keys.py:54-61 | the loop computes the register run over the values, from 1 |
| `Checksum.StepLinear` | backend/app/services/archive_keys.py:54-61 | one step is linear over GF(2) |
| `Checksum.RunLinear` | backend/app/services/archive_keys.py:54-61 | the checksum of a sum is the sum of the checksums, at every length |
| `Checksum.StepKeepsNonZero` | backend/app/services/archive_keys.py:54-61 | the register's step on a zero value is injective: a non-zero 30-bit register never becomes zero |
| `Checksum.CheckSymbolsComplete` | backend/app/services/archive_keys.py:85-89 | whatever came before, the six symbols appended make the register 1 |
| `Checksum.CheckSymbolsUnique` | backend/app/services/archive_keys.py:85-98 | no other six symbols do |
| `Checksum.BurstChangesRun` | backend/app/services/archive_keys.py:54-61 | runs that differ only within six consecutive symbols end in different registers |
| `Polynomials.StepReduces` | backend/app/services/archive_keys.py:51-61 | one step is the register times x plus the value, reduced by x^6 + 29x^5 + 22x^4 + 20x^3 + 21x^2 + 29x + 18 over GF(32) with a^5 = a^3 + 1 |
| `Polynomials.RunIsRemainder` | backend/app/services/archive_keys.py:51-61 | the register is the remainder of the values, read as a polynomial, by that generator, and no other six symbols are |
| `Polynomials.SmallPolynomial` | backend/app/services/archive_keys.py:54-61 | for five-bit values the polynomial is x^n and below it the values as they stand |
| `Regroup.Convert` | backend/app/services/archive_keys.py:68-82 | the loop cuts the bits, read as one number, into groups; with no padding it refuses exactly left-over bits that are too many or not zero |
| `Regroup.BytesToSymbolsAndBack` | backend/app/services/archive_keys.py:68-106 | bytes cut into padded symbols come back unchanged |
| `Regroup.SymbolsToBytesAndBack` | backend/app/services/archive_keys.py:68-106 | symbols accepted as bytes are exactly the padded symbols of those bytes |
| `Bech32.Bech32Encode` | backend/app/services/archive_keys.py:85-89 | the method writes the one encoding, its parts in order |
| `Bech32.Bech32Decode` | backend/app/services/archive_keys.py:92-106 | the method returns the decoded parts, or the first check that fails, whatever Python's case maps do to letters beyond ASCII |
| `Bech32.RoundTrip` | backend/app/services/archive_keys.py:85-106 | every lower-case ASCII human part and payload, of any length, comes back from the encoding and from its upper-case form |
| `Bech32.Canonical` | backend/app/services/archive_keys.py:68-106 | a text that decodes is, in lower case, the encoding of what it decodes to |
| `Bech32.AcceptedExactly` | backend/app/services/archive_keys.py:92-106 | any text at all is accepted if and only if it is in one case and its lower-case form is an encoding |
| `Bech32.AsciiAcceptedExactly` | backend/app/services/archive_keys.py:92-106 | an ASCII text is accepted if and only if it is an encoding or the upper-case form of one |
| `Bech32.DecodeInjective` | backend/app/services/archive_keys.py:92-106 | two texts that decode alike have one lower-case form |
| `Bech32.BurstDetected` | backend/app/services/archive_keys.py:54-61 | an accepted text changed only within six consecutive symbols is always refused with a bad checksum |
| `Bech32Code.VerifiesExactly` | backend/app/services/archive_keys.py:92-106 | a human part and its data are accepted if and only if their polynomial leaves the remainder 1 |
| `Bech32Code.ExpansionIs` | backend/app/services/archive_keys.py:64-65 | the human part goes in as its characters' high parts, a zero, and their low five bits |
| `Bech32Code.NoSeparatorExactly` | backend/app/services/archive_keys.py:92-99 | no separator is found if and only if the text is no non-empty part, a last 1, and six characters or more |
| `Bech32Code.PartedAnswers` | backend/app/services/archive_keys.py:100-103 | then it has a bad character if and only if what follows the separator spells no symbols |
| `Bech32Code.DataAnswers` | backend/app/services/archive_keys.py:104-106 | and then a bad checksum if and only if the remainder is not 1, and bad padding if and only if it is but no payload has the data; else that payload is read |
| `Bech32Code.PublishedText` | backend/app/services/archive_keys.py:85-89 | the string of BIP 173 that spells every symbol in order is written for its human part and payload |
| `KeyFile.ParseIdentities` | backend/app/services/archive_keys.py:152-166 | the loop returns all the identities in order, or the first bad line and its number |
| `KeyFile.IdentityLineParses` | backend/app/services/archive_keys.py:112-140 | the line printed for an identity parses back to it |
| `KeyFile.KeyFileRoundTrip` | backend/app/services/archive_keys.py:152-281 | a key file printed for any non-empty list of identities parses to that list in order |
| `KeyFileLines.SkippedExactly` | backend/app/services/archive_keys.py:156-158 | a line is passed over if and only if it is blank or starts, blanks aside, with a # |
| `KeyFileLines.IdentityExactly` | backend/app/services/archive_keys.py:133-140 | any line is an identity's if and only if, stripped, it starts in capitals, is in one case, and in lower case is the encoding of its 32 bytes |
| `KeyFileLines.AsciiIdentityExactly` | backend/app/services/archive_keys.py:112-140 | so of ASCII lines exactly the upper-case encoding of 32 bytes, its recipient the encoding of their public key |
| `KeyFileLines.FileExactly` | backend/app/services/archive_keys.py:152-166 | a file gives the identities of all its lines not passed over, in order, or is refused for the first line that is none, by its number and reason, or for having none |
| `BackupKey.KeyStore.Rotate` | backend/app/services/archive_keys.py:362-372 | whatever the new identity, it goes first and the others stay in order; a supplied key is never changed |
| `BackupKey.KeyStore.Sign` | backend/app/services/archive_keys.py:395-399 | the newest key signs, and every earlier archive stays signed by a key in the file |
| `BackupKey.KeyStore.Check` | backend/app/services/archive_keys.py:406-416 | any manifest is found to be an identity's if and only if it is the one of its recipient in the file, the manifest names it, and its MAC is the identity's over the rest; an archive signed before if and only if its signer is alone with its recipient, whatever rotations came between |
| `BackupKey.SignedExactly` | backend/app/services/archive_keys.py:395-399 | signing names the signer, adds its MAC over everything else, and leaves every other key of the manifest |
| `BackupKey.VerifiesExactly` | backend/app/services/archive_keys.py:378-416 | a signed archive verifies as its signer's if and only if the signer is the only configured identity of its recipient |
| `BackupKey.VouchedExactly` | backend/app/services/archive_keys.py:406-416 | the same for every list of identities: signed by the one identity of the named recipient, or refused as not ours |
| `BackupKey.ChangedRefused` | backend/app/services/archive_keys.py:378-416 | where no two manifests and sums have one MAC, a signed manifest with anything else changed, or with other sums, is refused |
| `BackupKey.SharedRecipientStrands` | backend/app/services/archive_keys.py:406-416 | two configured identities of one recipient make its archives unverifiable |
| `BackupKey.RotationStrandsExactly` | backend/app/services/archive_keys.py:362-416 | after any signing and rotating the file reads as the rotations in order, newest first, and every archive ever signed verifies if and only if its signer is alone with its recipient |
| `BackupKey.RotationStrandsNothing` | backend/app/services/archive_keys.py:362-416 | with distinct recipients every archive ever signed verifies |
| `OrderedDicts.PutLastKeeps` | backend/app/auth/throttle.py:177-187 | storing and moving to the end keeps keys distinct and every other entry |
| `Buckets.BackoffCurve` | backend/app/auth/throttle.py:41-45 | the waits are 1, 2, 4, 8, 16 and 32 seconds, and a minute from then on |
| `Buckets.WaitIsTight` | backend/app/auth/throttle.py:105-120 | a bucket refuses before the wait it names is over and lets through when it is |
| `Buckets.WaitTable` | backend/app/auth/throttle.py:1-30 | what a bucket of n failures makes its caller wait, of every kind, to the millisecond |
| `Buckets.SixtySecondBoundExactly` | backend/app/auth/throttle.py:41-45 | free + 5 + T/60 bounds every run of a bucket if and only if free is at most 10 |
| `Buckets.BucketBounded` | backend/app/auth/throttle.py:105-120 | the bound for any price of an attempt at which 15 minutes cover what a bucket can owe |
| `Windows.QueueCounts` | backend/app/auth/throttle.py:165-174 | after its old heads go, a window's queue is as long as the number let through in the past span |
| `Windows.AdmitTracks` | backend/app/auth/throttle.py:165-174 | letting one more through below the cap keeps any two a cap apart a span apart |
| `Throttle.Throttles.WaitFor` | backend/app/auth/throttle.py:123-129 | the flag looked at first, then the wait of the live bucket; an old entry is forgotten |
| `Throttle.Throttles.TryAttempt` | backend/app/auth/throttle.py:139-162 | the flag looked at first, then refused as a whole by the longest wait, or counted in every bucket, in order |
| `Throttle.Throttles.TryGlobal` | backend/app/auth/throttle.py:165-174 | the flag looked at first, then let through below 60 in the past minute, else the time until the head leaves |
| `Throttle.Throttles.FailBucket` | backend/app/auth/throttle.py:177-193 | one more failure, moved to the end, the oldest past 10,000 dropped |
| `Throttle.Throttles.FailAddress` | backend/app/auth/throttle.py:196-211 | refused by the longer of two waits, or counted in both places |
| `Throttle.Throttles.SucceedBucket` | backend/app/auth/throttle.py:232-235 | forgets the bucket and nothing else |
| `Throttle.Throttles.ApplyResetFlag` | backend/app/auth/throttle.py:277-287 | clears the sign-in map and the global window exactly when the flag is there and changed |
| `ThrottleHistory.RunRefines` | backend/app/auth/throttle.py:105-235 | over every run each map is in the order of last failures, within 10,000, and agrees with the history |
| `ThrottleHistory.MapsStayBounded` | backend/app/auth/throttle.py:177-187 | keys distinct, at most 10,000, sorted by last failure |
| `ThrottleHistory.WaitIsWhatHistorySays` | backend/app/auth/throttle.py:105-129 | a wait is the one counted from the key's whole history, whenever fewer than 10,000 other keys of its map failed since its last failure and between any two it remembers |
| `ThrottleHistory.WaitNeverExceedsHistory` | backend/app/auth/throttle.py:105-129 | in every run no key waits longer than its history says |
| `Crowding.HistoryDecidesExactly` | backend/app/auth/throttle.py:139-193 | in every run every wait is the history's if at most n other keys of the map failed since the key's last failure and between any two it remembers: true if and only if n is less than 10,000 |
| `Crowding.CrowdedOutExactly` | backend/app/auth/accounts.py:202-217 | after four wrong passwords of a known device, n > 0 sign-ins of other accounts from as many addresses (the first the device's own) and the device's fifth, the history says a second, with 2n other keys in its largest gap; the map says so if 2n is below 10,000 and lets the owner through if not |
| `ThrottleApart.LookExactly` | backend/app/auth/throttle.py:277-287 | a look leaves the sign-in map, window and noted flag alone if and only if it finds the flag as last noted |
| `ThrottleApart.FloodsStayApartExactly` | backend/app/auth/throttle.py:69-129 | throughout a run they are as if the share and single sign-on calls had not been if and only if every look of those calls finds the flag as last noted |
| `ThrottleApart.SignInAnswersUnchangedExactly` | backend/app/auth/throttle.py:69-129 | and only then is every sign-in that could come next, at every moment, answered as if they had not been |
| `ThrottleApart.CallbackUndoesWait` | backend/app/routers/sso.py:276-277 | a run in which the callback's look is the first: after five wrong passwords of a known device and a reset, the wait is 0 with the callback and 1 second without |
| `ThrottleBounds.GuessesBounded` | backend/app/auth/throttle.py:139-193 | at an affordable price, guesses let through on a kept bucket are at most its free ones, five and one a price of time, with failures and forgetting between |
| `ThrottleBounds.UserGuesses` | backend/app/auth/throttle.py:41-45 | a user: at most 10 + T/60 in any T seconds |
| `ThrottleBounds.AddressGuesses` | backend/app/auth/throttle.py:41-45 | an address: at most 25 + T/37, and 25 + T/60 in a run none of whose steps finds its bucket 15 minutes old |
| `ThrottleBounds.ShortSpanGuesses` | backend/app/auth/throttle.py:41-45 | and 25 + T/60 in any span of less than 901 seconds, forgetting included |
| `AddressBound.SignInsExceed` | backend/app/auth/accounts.py:204-206 | in any span of 901 seconds or more, sign-ins under 57 changing names, each let through by both buckets and the global check, are more than 25 + T/60 |
| `AddressBound.AddressBoundExactly` | backend/app/auth/throttle.py:105-120 | so 25 + T/60 holds for every address and every span of T if and only if T is less than 901 seconds |
| `ThrottleBounds.LinesAreSpaced` | backend/app/auth/throttle.py:165-211 | absent resets, checks 60 places apart are a minute apart, share and single sign-on failures 300 places apart |
| `ThrottleBounds.GlobalCheckExactly` | backend/app/auth/throttle.py:165-174 | a global check is let through if and only if fewer than 60 were in the past minute |
| `ThrottleBounds.RefusedCountsNothing` | backend/app/auth/throttle.py:196-211 | a refused address failure changes no later answer |
| `ThrottleBounds.AddressWaitIsTight` | backend/app/auth/throttle.py:196-211 | a retry before the wait it was told is refused, and one at it is let through, absent other traffic |
| `ThrottleAnswers.AttemptRefusedExactly` | backend/app/auth/throttle.py:139-162 | an attempt is refused if and only if one of its buckets waits, and is told the wait of the longest |
| `ThrottleAnswers.AttemptWaitIsTight` | backend/app/auth/throttle.py:139-162 | a retry of the same buckets before that is refused with what is left of it, and one at its end or later is let through, absent other traffic |
| `ThrottleAnswers.RefusedAttemptCountsNothing` | backend/app/auth/throttle.py:139-162 | a refused attempt changes no later wait |
| `ThrottleAnswers.GlobalWaitIsTight` | backend/app/auth/throttle.py:165-174 | the wait a refused global check is told is what is left until one is let through |
| `ThrottleAnswers.AddressRefusedExactly` | backend/app/auth/throttle.py:196-211 | over every run a failed share lookup or callback is refused if and only if its address waits or 300 were counted in the past minute |
| `Devices.KnownDevice.Reserve` | backend/app/auth/devices.py:48-62 | takes an attempt exactly while the row has fewer than five |
| `Devices.KnownDevice.Release` | backend/app/auth/devices.py:65-73 | gives one back, never below zero |
| `Devices.KnownDevice.Failed` | backend/app/auth/devices.py:76-82 | deletes the row when its attempts are used up |
| `Devices.FailuresAreExact` | backend/app/auth/devices.py:48-82 | under every interleaving of any number of requests, failures are the checks in flight, wrong and aborted, at most five |
| `Devices.AtMostFiveWrong` | backend/app/auth/accounts.py:185-230 | at most five wrong passwords are checked past the throttles on one device row |
| `Devices.ReleaseAlwaysGivesBack` | backend/app/auth/devices.py:65-73 | the guard never stops a live release, and a sign-in deletes the row |
| `Devices.FullRowRefuses` | backend/app/auth/devices.py:48-62 | a reservation is refused if and only if five attempts are held |
| `Devices.LastAttemptForgets` | backend/app/auth/devices.py:76-82 | a wrong password deletes the row if and only if all five attempts are held, and else leaves it |
| `Notify.Bursts.Count` | backend/app/auth/notify.py:52-67 | one kind's window and latest alert move, the other kinds stay |
| `Notify.AlertsExactly` | backend/app/auth/notify.py:52-67 | an alert goes out if and only if at least 20 events are in the past 15 minutes and none went out in the past hour, and it says how many |
| `Notify.AlertsAnHourApart` | backend/app/auth/notify.py:52-67 | two alerts of a kind are at least an hour apart |
| `Replay.ReplayMemory.Consume` | backend/app/auth/oidc.py:446-463 | refuses a state that is not the flow's and changes nothing; else drops old heads, refuses a state it holds, or remembers it last |
| `Replay.RunRemembers` | backend/app/auth/oidc.py:446-463 | the memory is the newest acceptances, in time order, at most 100,000 |
| `Replay.StatesAcceptedOnce` | backend/app/auth/oidc.py:446-463 | two acceptances of a state are 10 minutes apart or have 99,999 others between |
| `Replay.RecentStateRefused` | backend/app/auth/oidc.py:446-463 | a state accepted less than 10 minutes and 99,999 acceptances ago is refused |
| `Replay.RefusedExactly` | backend/app/auth/oidc.py:446-463 | a state is refused if and only if it was accepted less than 10 minutes ago with fewer than 99,999 acceptances since |
| `WaysIn.LinkKeeps` | backend/app/routers/sso.py:189-226 | the two checks before a link are all that the unique indexes ask |
| `WaysIn.ApplyKeeps` | backend/app/auth/accounts.py:133-590 | every transaction keeps the tables sound: each session not revoked has its own account's identity and an open way in |
| `WaysIn.RunKeeps` | backend/app/auth/accounts.py:288-590 | over every run no session that is not revoked outlives its identity, its provider's switch or the header switch |
| `WaysIn.RunFromEmpty` | backend/app/auth/accounts.py:133-590 | so over every run from empty tables |
| `SignInAnswers.PasswordAnswers` | backend/app/auth/accounts.py:233-259 | the right password lets in exactly an account that exists and is switched on |
| `SignInAnswers.CallbackAnswers` | backend/app/routers/sso.py:168-186 | a callback lets in if and only if the provider is enabled and some identity row has that provider, its issuer and the subject, and an account that is switched on; which of the two refusals it gets else |
| `SignInAnswers.HeaderAnswers` | backend/app/routers/sso.py:403-446 | the header likewise, where it is configured and on |
| `SignInAnswers.CallbackLinkAnswers` | backend/app/routers/sso.py:189-226 | a callback links if and only if the provider is enabled, the session the flow began in is presented live, confirmed lately, the subject fit, and neither the subject nor the account's place at the provider has a row; then one row is new and nothing else |
| `SignInAnswers.HeaderLinkAnswers` | backend/app/routers/sso.py:453-500 | the header likewise |
| `SignInAnswers.CallbackConfirmAnswers` | backend/app/routers/sso.py:234-248 | a callback confirms if and only if the live session its flow began in came in through that very subject at that provider |
| `SignInAnswers.OwnAnswers` | backend/app/auth/sessions.py:80-101 | exactly a live session is touched, at most once a minute, confirmed for 5 minutes, signed out, and ended by its account |
| `SignInAnswers.ChangePasswordAnswers` | backend/app/auth/accounts.py:381-405 | a live session changes the password: every session of the account ends and one new one starts |
| `SignInAnswers.ResetPasswordAnswers` | backend/app/auth/accounts.py:424-447 | the reset switches the claimed account on and ends its every session |
| `SignInAnswers.CreateAdminAnswers` | backend/app/auth/accounts.py:148-179 | the first account is made if and only if none was claimed |
| `SignInAnswers.PruneAnswers` | backend/app/auth/accounts.py:715-732 | pruning keeps exactly the rows that were not ended and in their time a moment before |
| `WaysOut.UnlinkingEndsItsOwn` | backend/app/auth/accounts.py:481-517 | unlinking ends exactly the sessions that came through the identity, counts them, and touches no password session |
| `WaysOut.DeletingEndsItsOwn` | backend/app/auth/accounts.py:520-553 | deleting a provider ends exactly the sessions of its identities; header and password sessions stay |
| `WaysOut.ChangingEndsItsOwn` | backend/app/routers/sso.py:783-847 | an accepted change ends sessions exactly when it switches the provider off, and then exactly the provider's |
| `WaysOut.HeaderOffEndsItsOwn` | backend/app/routers/sso.py:598-628 | switching the header off ends exactly the header sessions; any other form ends none |
| `WaysOut.DisablingEndsEveryExternal` | backend/app/auth/accounts.py:556-590 | the switch-off ends exactly the sessions that did not come by password |
| `WaysOut.ConfiguringEndsTheClosed` | backend/app/auth/sessions.py:116-142 | any configuring transaction ends a session if and only if its way in is closed afterwards |
| `WaysOut.OpenThroughout` | backend/app/auth/sessions.py:55-63 | over every run a session not revoked had its way in open at every moment since it was made |
| `WaysOut.PinnedWhileLinked` | backend/app/auth/config.py:203-226 | over every run, while an identity lives its row and its provider's issuer, client id, kind and preset never change |
| `WaysOut.AlertsDefaultedOnce` | backend/app/auth/config.py:229-249 | over every run the first provider ever to go on switches the alerts on, at its time, once; before it and after it they are what the settings forms say |
| `WaysOut.FirstOnOrNone` | backend/app/auth/config.py:229-249 | every run has that first step or never a provider on |
| `ConfigAnswers.IssuerAnswers` | backend/app/routers/sso.py:663-679 | a preset leads to an issuer exactly when it is given what it takes and nothing else, and to that one |
| `ConfigAnswers.AddAnswers` | backend/app/routers/sso.py:701-780 | a provider is added if and only if its preset leads to an issuer, no host is shared, there are fewer than eight, and none has its issuer and client id; then it is one new row |
| `ConfigAnswers.ChangeAnswers` | backend/app/routers/sso.py:783-847 | a change is accepted if and only if the row it asks for leads to an issuer, repins nothing linked, and no other has its issuer and client id; then that row is written and no other |
| `ConfigAnswers.UnlinkAnswers` | backend/app/auth/accounts.py:481-517 | an identity is unlinked if and only if it is the account's own, and only it and sessions change |
| `ConfigAnswers.DeleteAnswers` | backend/app/auth/accounts.py:520-553 | a provider is deleted if and only if it is there, with exactly the identities linked through it |
| `ConfigAnswers.DisableAnswers` | backend/app/auth/accounts.py:556-590 | the switch-off leaves every provider as it was but off |
| `ConfigAnswers.PutConfigAnswers` | backend/app/routers/sso.py:598-628 | the form sets the switches it names and no other |
| `Accounts.Tables.Pass` | backend/app/auth/gate.py:141-149 | a session found live is touched, at most once a minute |
| `Accounts.Tables.PasswordSignInOf` | backend/app/auth/accounts.py:233-282 | an active account gets a new session that works for seven days, the live one the browser held ends, its last sign-in is now, and nothing else changes |
| `Accounts.Tables.OidcCallback` | backend/app/routers/sso.py:168-186 | an enabled provider's linked, active account gets a session through exactly that subject's identity; the one presented ends; a refusal changes nothing |
| `Accounts.Tables.TrustedHeaderSignIn` | backend/app/routers/sso.py:403-446 | likewise for the header, configured and switched on |
| `Accounts.Tables.UnlinkIdentityOf` | backend/app/auth/accounts.py:481-517 | ends exactly the sessions that came through the identity, counts them, and removes it |
| `Accounts.Tables.DeleteProviderOf` | backend/app/auth/accounts.py:520-553 | ends exactly the sessions that came through the provider, counts them, and removes it |
| `Accounts.Tables.DisableSsoNow` | backend/app/auth/accounts.py:556-590 | the loop over enabled providers leaves none on and the header off, and exactly the external sessions ended |
| `Accounts.Tables.PruneSessions` | backend/app/auth/accounts.py:715-732 | deletes exactly the expired, idle and revoked rows |
| `Accounts.Tables.PutSigninConfig` | backend/app/routers/sso.py:598-628 | ends exactly the header's sessions when it switches the header off, and none otherwise |
| `Accounts.Tables.ChangeProviderOf` | backend/app/routers/sso.py:783-847 | ends exactly the provider's sessions when it switches it off, and none otherwise; a refusal changes nothing |
| `SessionLife.ApplyAges` | backend/app/auth/sessions.py:55-101 | no transaction undoes a revocation or moves the time last seen but a use |
| `SessionLife.NeverAgain` | backend/app/auth/sessions.py:55-77 | once a session is not valid it never is again, over every run, resets that switch accounts on included |
| `SessionRuns.RunAgrees` | backend/app/auth/sessions.py:80-86 | the time last seen is less than a minute behind the last use, over every run |
| `SessionRuns.WorksWhileUsed` | backend/app/auth/sessions.py:55-101 | a session last used at u works through u + 1 day - 1 minute within its 7 days unless ended, and not from u + 1 day |
| `Pruning.RunAlike` | backend/app/auth/accounts.py:715-732 | a run and the same run without its prunes differ only in rows that can never be valid again |
| `Pruning.PruneUnseen` | backend/app/auth/accounts.py:715-732 | so both find the same sessions valid and have the same accounts, identities, providers and switches |
| `Audit.AuditLog.Record` | backend/app/auth/audit.py:101-163 | an unknown event or a forbidden detail is refused and changes nothing, so no row ever carries one; after a write its class holds exactly the newest its cap and age allow of the whole history, and no row of another class is deleted |
| `Audit.AuditLog.Prune` | backend/app/auth/audit.py:166-168 | ages and caps the other rows, leaving both capped classes alone |
| `Audit.AllowedExactly` | backend/app/auth/audit.py:78-104 | a detail is allowed if and only if none of its keys, in lower case, has one of the four words in it |
| `Audit.OwnEventsKnown` | backend/app/auth/accounts.py:148-677 | no event that signing in, changing the account or its ways in records is refused |
| `Audit.RecordRefines` | backend/app/auth/audit.py:107-163 | every write keeps the table what the append-only history says, class by class |
| `Audit.TrimmedOf` | backend/app/auth/audit.py:137-145 | trimming keeps exactly the newest rows of its class and every row of any other |
| `Sampler.Sampling.Print` | backend/app/auth/audit.py:177-200 | counted without a line inside the window, else a line with what was pending |
| `Sampler.NoCountLost` | backend/app/auth/audit.py:177-200 | events of a label are the printed counts, the pending one and what a push out of the map lost, which is nothing if it never was |
| `Sampler.LinesApart` | backend/app/auth/audit.py:177-200 | lines of a label never pushed out are at least 15 minutes apart |
| `Sampler.NextLineExactly` | backend/app/auth/audit.py:177-200 | such a label is printed if and only if it is its first event or the window has passed |
| `Sampler.PrintsExactly` | backend/app/auth/audit.py:177-200 | over every run an event is printed if and only if it is its label's first, its last line is 15 minutes old, or 10,000 other labels had a line since |
| `Importing.FingerprintKeys` | backend/app/services/importing.py:107-119 | the Counter loop gives each row its digest and ordinal |
| `Importing.KeysDistinct` | backend/app/services/importing.py:107-119 | no two rows of a file share a key |
| `Importing.KeysExactly` | backend/app/services/importing.py:107-119 | the keys are the first ordinals of each digest, one for each occurrence |
| `Importing.KeysIgnoreOrder` | backend/app/services/importing.py:107-119 | the keys as a multiset do not depend on the order of the rows |
| `Importing.Library.PrepareAll` | backend/app/services/importing.py:395-467 | the chunked lookup flags exactly the candidates whose key an item of the source has, trash included |
| `Importing.Library.Run` | backend/app/services/importing.py:535-602 | items created, skipped and refused in order, what was made before a failure kept |
| `Importing.EveryRowCounted` | backend/app/services/importing.py:553-602 | a finished run has created + skipped + errors = rows and never changes an existing item |
| `Importing.FinishesExactly` | backend/app/services/importing.py:561-575 | a run finishes if and only if no row to create has a key that an item or an earlier row to create has |
| `ImportAnswers.ImportVerdicts` | backend/app/services/importing.py:395-467 | a row is an error, a duplicate or an item by its reader's error, its content, and whether the source has its key, the trash included |
| `ImportAnswers.PlacesExactly` | backend/app/services/importing.py:553-575 | the places of a verdict are exactly its rows', in order |
| `ImportAnswers.RunReports` | backend/app/services/importing.py:553-602 | a finished run's errors are, in order, the numbers of exactly the faulty rows, it skips exactly the duplicates among the rest, and each other row is an item, in order |
| `ImportAnswers.CrashReports` | backend/app/services/importing.py:561-575 | a run that does not finish ends at its first row with a taken key and leaves and reports what the rows before it alone would |
| `Reimport.ImportGrows` | backend/app/services/importing.py:395-602 | one import leaves each valid row as often as it was or as the file has it, whichever is more |
| `Reimport.AsOftenAsTheMost` | backend/app/services/importing.py:395-602 | after any imports, trash moves between, a row is there exactly as often as the file that had most of it |
| `Reimport.ExcessOnly` | backend/app/services/importing.py:395-602 | file A then file B creates exactly the multiset excess of B over A |
| `Reimport.AgainCreatesNothing` | backend/app/services/importing.py:395-602 | the same rows again, in any order, create nothing |
| `Serials.IsDate` | backend/app/services/serials.py:29-41 | the loop finds exactly the two readings that are real dates of 1700 to 2099 |
| `Serials.Traits` | backend/app/services/serials.py:44-80 | the set filled under the nested tests is the set of patterns the digits have, listed in order |
| `Serials.RepeatsExactly` | backend/app/services/serials.py:60-64 | a block repeated throughout is the same as a period |
| `Serials.LadderIsShort` | backend/app/services/serials.py:52-56 | a ladder has at most ten digits |
| `Serials.LadderAlone` | backend/app/services/serials.py:44-80 | a ladder has no other pattern but the star |
| `Serials.SuperRepeaterNoRadar` | backend/app/services/serials.py:57-64 | a super repeater is a radar of neither kind |
| `Serials.MadeOfTwo` | backend/app/services/serials.py:57-75 | super repeaters, super radars and double quads have two digits, and are binary if and only if they have six or more |
| `SerialForms.FormsExactly` | backend/app/services/serials.py:11-26 | each pattern is what a collector writes down: a part of the ten digits, a half twice, two digits in turn, a digit around another, two blocks of four, six nines, zeros and a number to 100, a real date |
| `SerialForms.DigitsJoin` | backend/app/services/serials.py:44-46 | the digits are read character by character, whatever else there is |
| `SerialForms.TraitsExactly` | backend/app/services/serials.py:44-80 | the traits of a serial are exactly the forms of its digits and the star, each once, in the order of the table |
| `Serials.DecodeEncode` | backend/app/services/serials.py:83-89 | decode undoes encode on any names without commas |
| `Serials.StoredTraitsReadBack` | backend/app/services/serials.py:83-93 | and so on every result of traits |
| `Serials.NamesKeptApart` | backend/app/services/serials.py:11-25 | no trait's name passes for another's with its underscores as wildcards, nor ends where another's goes on |
| `Serials.FilterFindsExactly` | backend/app/routers/items.py:335-336 | the LIKE filter matches if and only if the trait is in the list |
| `Serials.FoundUnderItsTraits` | backend/app/routers/items.py:335-336 | a serial is found under a trait if and only if it has the pattern |
| `Stamps.ReadPrint` | backend/app/services/backup.py:112-127 | a printed time reads back |
| `Stamps.StampsByTime` | backend/app/services/backup.py:124-127 | fixed-width stamps sort as the times they say |
| `Stamps.YearsExactly` | backend/app/services/backup.py:124-127 | the days to a year are 365 for each, one more every fourth but for three in four centuries |
| `Calendar.MonthsAlternate` | backend/app/services/serials.py:29-41 | the lengths of the months |
| `Retention.MarksTellKind` | backend/app/services/backup.py:116-121 | the two marks are in a matching name exactly when its suffix is of that kind |
| `Retention.ArchiveExactly` | backend/app/services/backup.py:52-56 | the names taken for archives are the prefix, eight digits, a dash, six digits, a mark or none, and the suffix |
| `Retention.WrittenReadsBack` | backend/app/services/backup.py:112-127 | a written name matches, is of its kind, and gives its time back |
| `Retention.Directory.Stored` | backend/app/services/backup.py:691-697 | exactly the matching names, newest first |
| `Retention.Directory.Prune` | backend/app/services/backup.py:700-726 | deletes exactly the expired, the surplus and the leftovers and lists the first two in the order deleted, or deletes nothing when a time it must read is not one |
| `Retention.NewestStays` | backend/app/services/backup.py:700-716 | the newest full and the newest data-only archive are never deleted |
| `Retention.GoesExactly` | backend/app/services/backup.py:700-719 | an archive goes if and only if it is past a retention that is not 0 with a newer one of its kind, or is a safety archive with three newer |
| `Retention.GoesByName` | backend/app/services/backup.py:700-719 | and with any stamps, where pruning does not fail: if and only if another of its kind sorts after it and it is past a retention that is not 0, or three safety archives do |
| `Retention.LeftoversExactly` | backend/app/services/backup.py:720-725 | of the other files partial archives go, and downloads exactly when more than a day old; every other name stays, and what stays keeps its time |
| `Retention.RaisesExactly` | backend/app/services/backup.py:700-716 | pruning fails, deleting nothing, if and only if a retention is set and a full or data-only archive that is not the last by name has a stamp that is not a time |
| `Retention.PruneAgain` | backend/app/services/backup.py:700-726 | pruning again at the same time deletes nothing more |
| `Retention.NewestAlwaysThere` | backend/app/services/backup.py:700-726 | whatever is written and pruned with any retention, once there is a full (or data-only) archive there is always one as new |

## Left out

- `KeyFile.ParseIdentities`: the public key of a secret (X25519) is a parameter; files, permissions and the environment key are not modelled.
- `BackupKey.VerifiesExactly`: HKDF, HMAC and JSON text are one function of identity, manifest and checksums.
- `Throttle.Throttles.TryAttempt`: only for the user, address and setup buckets it is called with; `share_address` is taken as done.
- `ThrottleHistory.WaitIsWhatHistorySays`: crowding between two earlier failures is excluded too, since the failure after it starts the count again; the exact number is in `Crowding.HistoryDecidesExactly`.
- `Devices.FailuresAreExact`: one device row; sign-ins of other rows and the expiry of the row are not modelled.
- `WaysIn.RunKeeps`: a callback is one step; the network call between its check of the provider and its commit is not modelled, and identity ids are never used again.
- `Accounts.Tables.PasswordSignInOf`: the password is right; the check itself is in `Throttle` and `Devices`. A cookie is the id of the row its digest names, and the rotation the route commits after the sign-in is part of the same step.
- `Accounts.Tables.ChangePasswordOf`: of what is ended beside the sessions (devices, browsers, tokens) nothing is modelled.
- `Accounts.Tables.ResetPasswordOf`: the same, and the throttle's reset flag is in `Throttle`.
- `Accounts.Tables.PruneSessions`: devices, browsers and tokens are pruned in the same call and left out.
- `Accounts.Tables.Add`: the form of an issuer is a parameter; the dry run, scopes, secrets, logout and update times of a provider are left out, being set without conditions.
- `Accounts.Tables.ChangeProviderOf`: the same columns are left out.
- `Audit.AuditLog.Record`: of a detail only the keys are modelled, and the other columns are left out.
- `Importing.Library.PrepareAll`: the extra lookup of a Cabinet export's own ids, grades and tags are left out.
- `Importing.Library.Run`: photos and the events recorded beside an item are left out.
- `Reimport.AsOftenAsTheMost`: needs digests that no two rows share and nothing purged from the trash.
- `Serials.Traits`: bullion, which never gets traits, is told apart in the router.
- `Serials.FilterFindsExactly`: LIKE is case-sensitive and without an escape character, neither of which a trait's name can show.
- `Retention.Directory.Prune`: digits are ASCII, names do not end in a line break, and a year has four digits; a leftover that is a directory is not modelled.
- Browser cookies, API tokens, username changes, cookies, redirects and headers: plumbing.
- Discovery, token exchange, ID tokens and the gateway's assertions: network clients over libraries not shown.
- The gate's permission table, CRUD routers, dashboards, comps and currency: easy cases or floats.
- CSV export and import as a round trip: the format loses information on purpose.
