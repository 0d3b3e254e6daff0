# Badge authority handshake in Dafny

This project models the transaction handshake of the badge authority's
`BadgeManager`. A sponsor application begins a transaction and receives a
token. The end user submits an email address. The authority either re-sends
badges the user already holds (the fast path) or mails an 11-character
verification code. The user submits the code. A matching code mints an email badge named after
the domain, whenever it arrives. The authority also mints one inferred badge
per graph entry for that domain. Each badge expires one year later, and the
badges are POSTed to the sponsor's callback. A wrong code refuses the badge
and tells the sponsor in two cases: the transaction already has more than two
retries, or the code was issued more than ten minutes ago. Otherwise a wrong
code adds one retry.

The model has these files:

- `Records.dfy` holds the documents the authority keeps: applications,
  transactions, badges and graph entries. It also holds the notifications and
  mails it sends, and the constants: 10 and 15 minutes, one year, status 202,
  and the one-letter state and type codes.
- `Base64Url.dfy` holds unpadded URL-safe base64. Tokens and verification
  codes are made with it. It proves the decode/encode round trip and
  injectivity.
- `Protocol.dfy` gives each request step as a function from a store value to
  a new store and a response. The outside world is passed in as parameters:
  the clock (`now`, in milliseconds), the random bytes (`None` when the
  secure random source throws), whether each store write reports an error,
  what the mail sender does, and what the sponsor's endpoint answers.
- `Manager.dfy` holds the class `BadgeManager`. Its fields are the
  transaction and badge collections, updated in place, plus a log of the POSTs
  and mails sent. Each handler is proved to have exactly the effect and
  response of its function in `Protocol`, and to keep the store well formed.
- `Invariants.dfy` proves that every step keeps a store well formed. In a
  well-formed store, every transaction has a state, a start time and a
  retry count. It carries a code and an address exactly when it has left
  state `p`. Badge identifiers grow in insertion order.
- `Properties.dfy` holds the properties of the handshake as the code is
  written. These include the places where the code does less than its own
  comments and messages say. They are listed below.

The model follows the code. In these places the code does less than its own
text suggests, or less than a reader might expect:

- `checkApplication` (BadgeManager.java:699-709) never reads the application's
  status field, although `ApplicationDAOConstants.java:28-37` defines active,
  expired and suspended statuses (`CheckApplicationIgnoresStatus`).
- The comment at BadgeManager.java:321 says only two retries are allowed.
  Entering verification does not reset the retry count; it sets only the
  state, code, address and start time (`IssueCodeKeepsRetries`). `verify`
  refuses only once the count is above two (`RetriesCheckedBeforeTimeout`).
- The message at BadgeManager.java:45 says the user has ten minutes to enter
  the code. `verify` compares the code before anything else and never reads
  the state, so a matching code mints at any time and in any state, and a
  second matching code mints again (`MatchingCodeMints`,
  `RepeatedVerifyDuplicatesBadges`).
- `createBadge` (BadgeManager.java:579-606) inserts unconditionally. It never
  looks for an existing badge with the same name and owner.
- The comment at BadgeManager.java:609 says `getActiveBadgesForEmailAddress`
  retrieves active badges. The filter at :621 keeps badges with no expiry or
  an expiry already passed (`ActiveBadgesAreExpired`). The fast path
  (:292-311) writes nothing to the transaction, which stays in state `p`.

Java exceptions that escape a handler (a `NullPointerException` or a
`ClassCastException`) are the response `Fault`. Store changes made before
the exception are kept.

## Model

| member | source | states |
|---|---|---|
| Records.TxState.Code | src/main/java/com/eweware/badging/dao/TransactionDAO.java:51-60 | each transaction state is stored as one letter (p, v, a, or the refusal reason r or t) |
| Records.TxStateCodeInjective | src/main/java/com/eweware/badging/dao/TransactionDAO.java:51-60 | two transaction states share a letter only when they are the same state |
| Records.RefusalReason.Code | src/main/java/com/eweware/badging/dao/TransactionDAO.java:59-60 | each refusal reason is one letter |
| Records.BadgeType.Code | src/main/java/com/eweware/badging/dao/BadgeDAO.java:25-26 | each badge kind is one letter |
| Records.NoticeState.Code | src/main/java/com/eweware/badging/payload/BadgingNotificationEntity.java:49-52 | each notification state is one letter |
| Records.NoticeStateCodeInjective | src/main/java/com/eweware/badging/payload/BadgingNotificationEntity.java:49-52 | two notification states share a letter only when they are the same state |
| Base64Url.Encode | src/main/java/com/eweware/badging/mgr/BadgeManager.java:233 | the encoding of n bytes has (4n+2)/3 characters, all from the URL-safe alphabet (no padding) |
| Base64Url.DecodeEncode | src/main/java/com/eweware/badging/mgr/BadgeManager.java:233 | decoding an encoding gives back the original bytes |
| Base64Url.EncodeInjective | src/main/java/com/eweware/badging/mgr/BadgeManager.java:233 | different byte strings have different encodings |
| Protocol.IndexOf | src/main/java/com/eweware/badging/mgr/BadgeManager.java:643 | -1 exactly when the character is absent; otherwise the position of its first occurrence |
| Protocol.EmailDomain | src/main/java/com/eweware/badging/mgr/BadgeManager.java:628-630 | the text after the first '@'; with no '@', the whole address |
| Protocol.IsEmailValid | src/main/java/com/eweware/badging/mgr/BadgeManager.java:642-644 | an address is valid exactly when it is present and contains '@' |
| Protocol.CheckApplication | src/main/java/com/eweware/badging/mgr/BadgeManager.java:699-709 | authenticates exactly when the application exists, its stored password is non-null, and the password matches |
| Protocol.Token | src/main/java/com/eweware/badging/mgr/BadgeManager.java:225-233 | the token is the application name followed by 27 base64url characters |
| Protocol.VerificationCode | src/main/java/com/eweware/badging/mgr/BadgeManager.java:322-329 | the code is 11 base64url characters |
| Protocol.Inc | src/main/java/com/eweware/badging/mgr/BadgeManager.java:389 | the store's increment adds one to a present count and gives 1 for a missing one |
| Protocol.Begin | src/main/java/com/eweware/badging/mgr/BadgeManager.java:219-250 | Unauthorized exactly when authentication fails; a token exactly when authentication, random bytes and insertion all succeed, and then only the new transaction (state p, retries 0, started now) is added; otherwise nothing changes |
| Protocol.ActiveBadges | src/main/java/com/eweware/badging/mgr/BadgeManager.java:614-626 | a badge is returned exactly when it belongs to the address and has no expiry or an expiry before now |
| Protocol.ActiveBadgesAppend | src/main/java/com/eweware/badging/mgr/BadgeManager.java:617-624 | the filter keeps collection order: filtering two runs of badges in a row gives the filtered runs in a row |
| Protocol.Entries | src/main/java/com/eweware/badging/mgr/BadgeManager.java:530-543 | one granted entry per badge, in order, carrying that badge's id, kind, name and expiry |
| Protocol.TransmitOutcome | src/main/java/com/eweware/badging/mgr/BadgeManager.java:544-563 | success (null) exactly when the sponsor answers 202; otherwise a "notify…" error code |
| Protocol.IssueCode | src/main/java/com/eweware/badging/mgr/BadgeManager.java:320-353 | the transaction enters v with the code, address and new start time exactly when random bytes and update succeed; a form is returned exactly when the mail did not fail; when sent, exactly one mail is logged, to the address, with the verification subject and the same code that is stored; otherwise no mail is logged; badges and POSTs are untouched |
| Protocol.AcceptEmail | src/main/java/com/eweware/badging/mgr/BadgeManager.java:292-315 | badges are never touched; the transactions either stay as they are or only the submitting one enters v with the code drawn from the random bytes |
| Protocol.SubmitEmail | src/main/java/com/eweware/badging/mgr/BadgeManager.java:262-318 | badges are never touched; no transaction is added or removed; a transaction changes only when the token is registered, the address is valid and random bytes were drawn, and then only the submitting one enters v with the fresh code |
| Protocol.Refuse | src/main/java/com/eweware/badging/mgr/BadgeManager.java:412-452 | with the sponsor registered, one refusal notice for the transaction and reason is POSTed to the sponsor's callback URL, and when the update succeeds the state becomes the reason code with one retry more; with no sponsor nothing changes |
| Protocol.CreateBadge | src/main/java/com/eweware/badging/mgr/BadgeManager.java:579-606 | a badge object is returned exactly when the insert succeeds or the error report is answered 202; only a successful insert stores it; a failed insert POSTs a server-error notice |
| Protocol.InferredNames | src/main/java/com/eweware/badging/mgr/BadgeManager.java:494-498 | a name is listed exactly when a graph entry maps the domain to it |
| Protocol.InferredNamesAppend | src/main/java/com/eweware/badging/mgr/BadgeManager.java:494-498 | the graph is read in collection order, one name per matching entry: reading two runs of entries in a row gives their names in a row |
| Protocol.MintInferred | src/main/java/com/eweware/badging/mgr/BadgeManager.java:497-508 | transactions and mails are untouched; badges are only appended; at most one badge per name, and one for every name unless the loop ended in an exception |
| Protocol.MintInferredBadges | src/main/java/com/eweware/badging/mgr/BadgeManager.java:497-508 | the i-th badge the loop makes carries the i-th name, the inferred kind, the owner and the common expiry |
| Protocol.Mint | src/main/java/com/eweware/badging/mgr/BadgeManager.java:460-522 | only the given transaction can change, and only to state a; no mail is sent; badges are only added |
| Protocol.Verify | src/main/java/com/eweware/badging/mgr/BadgeManager.java:362-392 | no transaction is added or removed; only the submitted one can change; no mail is sent; badges are added only when the submitted code equals the stored one |
| Invariants.BeginPreservesWellFormed | src/main/java/com/eweware/badging/mgr/BadgeManager.java:235-240 | beginning a transaction keeps the store well formed |
| Invariants.IssueCodePreservesWellFormed | src/main/java/com/eweware/badging/mgr/BadgeManager.java:331-337 | issuing a code for an address with '@' keeps the store well formed |
| Invariants.SubmitEmailPreservesWellFormed | src/main/java/com/eweware/badging/mgr/BadgeManager.java:262-318 | submitting an address keeps the store well formed |
| Invariants.CreateBadgeKeepsIdsOrdered | src/main/java/com/eweware/badging/mgr/BadgeManager.java:579-586 | creating a badge keeps identifiers below the next one and increasing |
| Invariants.MintInferredKeepsIdsOrdered | src/main/java/com/eweware/badging/mgr/BadgeManager.java:497-508 | the inferred-badge loop keeps identifiers ordered |
| Invariants.MintPreservesWellFormed | src/main/java/com/eweware/badging/mgr/BadgeManager.java:460-522 | minting keeps the store well formed |
| Invariants.RefusePreservesWellFormed | src/main/java/com/eweware/badging/mgr/BadgeManager.java:426-430 | a refusal keeps the store well formed |
| Invariants.MismatchPreservesWellFormed | src/main/java/com/eweware/badging/mgr/BadgeManager.java:379-391 | a wrong code (refusal for retries or timeout, or one retry more) keeps the store well formed |
| Invariants.VerifyPreservesWellFormed | src/main/java/com/eweware/badging/mgr/BadgeManager.java:362-392 | verifying a code keeps the store well formed |
| Manager.BadgeManager.Post | src/main/java/com/eweware/badging/mgr/BadgeManager.java:183-207 | the notification is appended to the POST log |
| Manager.BadgeManager.InitBadgingTransaction | src/main/java/com/eweware/badging/mgr/BadgeManager.java:219-250 | the new state and response are those of Protocol.Begin; well-formedness is kept |
| Manager.BadgeManager.GetActiveBadgesForEmailAddress | src/main/java/com/eweware/badging/mgr/BadgeManager.java:614-626 | the loop returns Protocol.ActiveBadges of the badge collection |
| Manager.BadgeManager.TransmitBadges | src/main/java/com/eweware/badging/mgr/BadgeManager.java:528-564 | the loop builds the entries of the grant notice, one per badge, and appends it to the POST log; the result is Protocol.TransmitOutcome |
| Manager.BadgeManager.MakeValidationCodeResponse | src/main/java/com/eweware/badging/mgr/BadgeManager.java:320-353 | the new state and response are those of Protocol.IssueCode |
| Manager.BadgeManager.ProcessUserCredentials | src/main/java/com/eweware/badging/mgr/BadgeManager.java:262-318 | the new state and response are those of Protocol.SubmitEmail; well-formedness is kept |
| Manager.BadgeManager.AcceptEmail | src/main/java/com/eweware/badging/mgr/BadgeManager.java:292-315 | the new state and response are those of Protocol.AcceptEmail |
| Manager.BadgeManager.TransmitBadgeRefusal | src/main/java/com/eweware/badging/mgr/BadgeManager.java:412-452 | the new state is that of Protocol.Refuse |
| Manager.BadgeManager.CreateBadge | src/main/java/com/eweware/badging/mgr/BadgeManager.java:579-606 | the new state and result are those of Protocol.CreateBadge |
| Manager.BadgeManager.CreateInferredBadges | src/main/java/com/eweware/badging/mgr/BadgeManager.java:494-508 | the loop over the domain's abstractions has the effect and result of Protocol.MintInferred |
| Manager.BadgeManager.CreateAndTransmitBadge | src/main/java/com/eweware/badging/mgr/BadgeManager.java:460-522 | the new state and response are those of Protocol.Mint |
| Manager.BadgeManager.Verify | src/main/java/com/eweware/badging/mgr/BadgeManager.java:362-392 | the new state and response are those of Protocol.Verify; well-formedness is kept |
| Properties.TokenInjective | src/main/java/com/eweware/badging/mgr/BadgeManager.java:233 | a token determines the application name and the random bytes |
| Properties.CheckApplicationIgnoresStatus | src/main/java/com/eweware/badging/mgr/BadgeManager.java:699-709 | changing an application's status never changes whether it authenticates |
| Properties.SubmitEmailGuardsChangeNothing | src/main/java/com/eweware/badging/mgr/BadgeManager.java:264-290 | a failing token, state or timeout guard returns a code and changes nothing; an invalid address re-renders the form and changes nothing |
| Properties.EmailAcceptedUntilFifteenMinutes | src/main/java/com/eweware/badging/mgr/BadgeManager.java:278-282 | an address submitted exactly 15 minutes after the start passes the guards; one 1 ms later gets "credtimeout" and changes nothing |
| Properties.IssueCodeKeepsRetries | src/main/java/com/eweware/badging/mgr/BadgeManager.java:331-337 | entering v sets the state, code, address and start time, and keeps the retry count and the sponsor |
| Properties.MailFailureAfterUpdate | src/main/java/com/eweware/badging/mgr/BadgeManager.java:337-349 | a failed mail answers "mai", with the transaction already in v and no mail logged |
| Properties.MailedCodeIsStored | src/main/java/com/eweware/badging/mgr/BadgeManager.java:331-345 | the one mail sent carries the code now stored in the transaction, to the address now stored in it, under the verification subject |
| Properties.FastPathIffActiveBadges | src/main/java/com/eweware/badging/mgr/BadgeManager.java:292-315 | past the guards, the fast path (existing badges re-POSTed, no transaction written, no mail) is taken exactly when the filter keeps a badge; otherwise a code is issued |
| Properties.ActiveBadgesAreExpired | src/main/java/com/eweware/badging/mgr/BadgeManager.java:619-623 | an owner's dated badge is reported active exactly when its expiry is before now |
| Properties.MatchingCodeMints | src/main/java/com/eweware/badging/mgr/BadgeManager.java:374-377 | a matching code mints, whatever the state, the retry count or the time elapsed |
| Properties.RetriesCheckedBeforeTimeout | src/main/java/com/eweware/badging/mgr/BadgeManager.java:380-383 | on a mismatch, more than two retries refuse with "vertoomanyattempts" before the timeout is looked at |
| Properties.TimeoutRefusal | src/main/java/com/eweware/badging/mgr/BadgeManager.java:384-386 | on a mismatch within the retry budget, a code older than ten minutes refuses with "vertimeout" |
| Properties.WrongCodeCountsRetry | src/main/java/com/eweware/badging/mgr/BadgeManager.java:389-391 | otherwise a wrong code adds exactly one to the retry count, changes nothing else, and re-renders the code form |
| Properties.WrongCodeNeverThrows | src/main/java/com/eweware/badging/mgr/BadgeManager.java:374-391 | in a well-formed store, a wrong code for a transaction past state p never throws |
| Properties.VerifyBeforeEmailThrows | src/main/java/com/eweware/badging/mgr/BadgeManager.java:374-375 | verify on a transaction that has not reached v throws, because there is no stored code |
| Properties.MintWithoutSponsor | src/main/java/com/eweware/badging/mgr/BadgeManager.java:467-472 | with no registered sponsor, minting answers "noappreg" and changes nothing |
| Properties.MintInferredAllInserted | src/main/java/com/eweware/badging/mgr/BadgeManager.java:497-508 | when every insert succeeds, the loop stores one badge per name, uses one identifier each, and POSTs nothing |
| Properties.MintedSequence | src/main/java/com/eweware/badging/mgr/BadgeManager.java:476-508 | when every insert succeeds, the email badge (next identifier, named after the domain, expiring a year from now) is made first, the loop does not end in an exception, and the badge collection grows by exactly the email badge and the loop's badges |
| Properties.MintAllInserted | src/main/java/com/eweware/badging/mgr/BadgeManager.java:476-508 | when every insert succeeds, the badges added are the email badge, named after the domain, then one inferred badge per graph name in order, all owned by the address and expiring a year from now |
| Properties.MintAllInsertedNotifies | src/main/java/com/eweware/badging/mgr/BadgeManager.java:511-521 | when every insert succeeds, state a is written only when the update succeeds, and one grant listing exactly the added badges is POSTed either way; the response follows the sponsor's answer |
| Properties.RepeatedVerifyDuplicatesBadges | src/main/java/com/eweware/badging/mgr/BadgeManager.java:579-586 | verifying twice with the right code stores the whole set twice, so two badges share a (name, owner) pair |

## Left out

- HTTP transport, JSON encoding, connection pooling and the HTTP client's
  lifecycle are left out. A POST is recorded in the outbox, and its answer
  (a status, or a transport error) is a parameter.
- SMTP and the mail manager's internals are left out. Sending is recorded in
  the mailbox, and its outcome is a parameter. `MailSkipped` stands for a
  mail manager that is switched off.
- The HTML of the forms and of the generic responses is left out. A response
  carries only its error code and which form it shows.
- The document store's setup, its indexes and the generation of ObjectIds are
  left out. Identifiers come from a counter, and each store write's error
  report is a parameter. Concurrent requests are not modelled; each handler
  runs alone.
- The clock is one `now` per request. The code reads the clock separately
  for the timeout check, the stored start time and the badge expiry, and
  these readings are taken to be equal.
- The retry count is an unbounded integer. Java's `Integer` overflow is not
  modelled. It would take more than two billion wrong codes on one
  transaction, since each refusal adds one more.
- A null application name in `initBadgingTransaction` is not modelled; the
  name is a string.
- The exception thrown when the `HttpPost` constructor itself rejects a URL
  is not modelled. Its catch clause would then call `abort` on a null `post`.
- The messages of the logs are not modelled. `makeEmailBody` is not
  modelled either: the mail carries only the address, the subject and the
  code.
- Development-mode plumbing is reduced to one flag. In development mode the
  sponsor's endpoint is replaced by the development host; the other
  development settings are left out.
- The `BadgeManager` constructor, `start` and `shutdown` (configuration and
  connections) are not modelled. The class's constructor takes the
  configuration and an initial store.
- Protocol.TransmitOutcome: the ensures only says a failure code starts with
  "notify". The exact code ("notifyerror" or "notifynotaccepted-" followed by
  the status) is stated by the body only.
