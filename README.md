# Wallet service with a coalescing write queue

A Dafny model of the wallet API: an HTTP service that keeps one balance per
wallet. Writes (DEPOSIT and WITHDRAW) do not go straight to the database.
They are queued, buffered, flushed in batches, grouped by (wallet,
operation), summed, and applied with one store call per group. Every caller
in a group then receives that call's error. Reads go straight to the store.

The model covers six parts of the system:

- `Queue` (`queue.dfy`): the `ProcessQueue` loop as a state machine over
  receive, tick and cancel events, plus the class `Queue` whose methods
  perform those events on a buffer field. It also holds the worker: grouping
  with the `byKey` loop, summing with the `totalAmount` loop, one store call
  per group, and non-blocking delivery of the result.
- `Repo` (`repo.dfy`): the wallets table as a map held by the class
  `WalletRepo`. `Deposit` and `Withdraw` are conditional updates with exact
  error disambiguation.
- `Service` (`service.dfy`): the operation switch of `UpdateBalance`, the
  wait for the result, and the delegation of `GetBalance`.
- `Dto` (`dto.dfy`): the two request validators.
- `Middleware` (`limiter.dfy`): the fixed-window limiter `CheckConn`, with
  the clock reading passed in, and `getClientIP`.
- `Env` (`env.dfy`): the line parser of `parseEnvFile`, `defaultString`, the
  precedence between the process environment and the file, and
  `Env.Validate`.

`Common` and `Strings` hold the shared types and the few Go `strings`
functions the code relies on.

Go's concurrency becomes sequential:

- A flush returns the batch that `go q.worker` would receive.
- The worker is a method over that batch.
- Go's map iteration order is a parameter `order`: any enumeration of the
  batch's keys.
- Callers that are ready to receive form a set `listening` of result
  channels.

On cancellation `ProcessQueue` returns without a final flush
(internal/queue/queue.go:59-60), so `Step` stops with the buffer unflushed.

## Model

| member | source | states |
|---|---|---|
| Common.MessageInjective | internal/repo/wallet.go:38-70 | distinct error kinds have distinct texts, so a caller comparing `err.Error()` tells them apart; the kinds are the store's errors, the unknown-operation error of internal/service/wallet.go:40, and `AmountOverflow`, which only the corrected `Queue.Dispatch` returns |
| Repo.ApplyDeposit | internal/repo/wallet.go:36-51 | success exactly when amount > 0 and the row exists, then balance + amount; amount ≤ 0 gives "amount must be positive"; a missing row gives "wallet not found"; any failure leaves the table unchanged |
| Repo.ApplyWithdraw | internal/repo/wallet.go:53-73 | success exactly when amount > 0, the row exists and balance ≥ amount, then balance − amount; each failure (non-positive amount, missing wallet, insufficient balance) holds exactly under its own condition and leaves the table unchanged |
| Repo.WritesPreserveLedger | internal/repo/wallet.go:36-73 | both writes keep every balance ≥ 0, create and delete no row, and change no row other than the one named |
| Repo.WalletRepo.constructor | internal/repo/wallet.go:18-20 | the store starts from a table whose balances are all non-negative |
| Repo.WalletRepo.GetBalance | internal/repo/wallet.go:22-34 | a missing id reads as 0 with no error; an existing id reads as its stored balance |
| Repo.WalletRepo.Deposit | internal/repo/wallet.go:36-51 | the new table and the returned error are `ApplyDeposit` of the old table; the non-negative invariant is kept |
| Repo.WalletRepo.Withdraw | internal/repo/wallet.go:53-73 | the new table and the returned error are `ApplyWithdraw` of the old table; the non-negative invariant is kept |
| Queue.Step | internal/queue/queue.go:57-69 | once stopped, nothing changes; cancel stops without flushing; otherwise the batch followed by the new buffer is the old buffer followed by the received request; a tick flushes the whole buffer; a receive flushes exactly when the buffer reaches buffSize; a batch always leaves the buffer empty; the buffer stays below buffSize |
| Queue.Run | internal/queue/queue.go:57-69 | the loop over a run of events starts at most one worker per event, and once it has returned it stays put and starts none |
| Queue.RunNoLoss | internal/queue/queue.go:47-67 | no loss and no reorder: over any run without cancellation, the flushed batches concatenated and followed by the buffer are the requests received, in arrival order |
| Queue.FlushStep | internal/queue/queue.go:47-67 | one event keeps the flushed-then-buffered sequence equal to the received sequence |
| Queue.RunBounds | internal/queue/queue.go:63-67 | between events the buffer holds fewer than buffSize requests, and every batch handed to a worker holds between 1 and buffSize requests |
| Queue.RunAfterCancel | internal/queue/queue.go:59-60 | after a cancellation no further batch is ever produced and the buffered requests stay where they are, never reaching a worker |
| Queue.Members | internal/queue/queue.go:80-84 | a group holds only requests of the batch that carry its key |
| Queue.MembersAppend | internal/queue/queue.go:81-83 | grouping distributes over concatenation, so submission order is kept within every group |
| Queue.MembersPartition | internal/queue/queue.go:80-84 | every occurrence of a request lands in the group of its own key exactly once, and in no other group |
| Queue.GroupByKey | internal/queue/queue.go:80-84 | the `byKey` loop yields one non-empty entry per key of the batch, each holding exactly that key's members in batch order |
| Queue.GroupStep | internal/queue/queue.go:82-83 | one iteration of the grouping loop keeps `byKey` a grouping of the requests seen so far |
| Queue.SumPositive | internal/queue/queue.go:86-89 | a group of positive amounts has a total of at least its size |
| Queue.TotalAmount | internal/queue/queue.go:86-89 | the summing loop computes the exact sum of the group's amounts |
| Queue.Wrap | internal/queue/queue.go:88 | int64 addition wraps to the int64 range and is the identity on values already in range |
| Queue.WrapShift | internal/queue/queue.go:88 | wrapping after each addition equals wrapping once at the end |
| Queue.WrappedTotal | internal/queue/queue.go:86-89 | the running int64 total, as written, is the exact sum taken modulo 2^64 |
| Queue.WrappedTotalCounterexample | internal/queue/queue.go:86-89 | three positive deposits of MaxInt64, MaxInt64 and 3 give a written total of 1 where the exact sum is 2·MaxInt64 + 3 |
| Queue.CheckedTotal | internal/queue/queue.go:86-89 | the corrected total exists exactly when the exact sum fits in int64, and then equals both the exact and the written total |
| Queue.Deliver | internal/queue/queue.go:97-102 | no more sends than members |
| Queue.DeliverSpec | internal/queue/queue.go:97-102 | every send carries the group's single outcome to a listening member of the group, and every listening member is sent it |
| Queue.DeliverAll | internal/queue/queue.go:97-102 | the sending loop makes exactly the sends `Deliver` describes, in member order |
| Queue.Dispatch | internal/queue/queue.go:90-96 | DEPOSIT makes one `Deposit` call and WITHDRAW one `Withdraw` call with the group's wallet and total, and the store's answer is the group's outcome; another op makes no call and a nil error; a total outside int64 makes no call and fails the group |
| Queue.ProcessGroup | internal/queue/queue.go:85-103 | one pass of the loop over `byKey` records one outcome, for that key, over the exact total of its members, and makes at most one send per member |
| Queue.RunGroups | internal/queue/queue.go:85-103 | the worker over the keys in iteration order records exactly one outcome per key |
| Queue.EnumerationSize | internal/queue/queue.go:85 | the worker processes exactly as many groups as the batch has distinct (wallet, op) keys |
| Queue.RunGroupsSingle | internal/queue/queue.go:85-96 | a worker whose iteration order is the single key `k` ends exactly as processing `k`'s group alone: the same table, group outcome and sends |
| Queue.RunGroupsShape | internal/queue/queue.go:85-96 | one group outcome per key, in processing order, whose total is the sum of that key's members; a call, when there is one, goes to the group's wallet with that total, and there is one exactly for DEPOSIT or WITHDRAW with an in-range total |
| Queue.RunGroupsLedger | internal/queue/queue.go:85-96 | a worker keeps every balance non-negative, creates and deletes no wallet, and leaves untouched every wallet that no group is keyed on |
| Queue.ProcessGroupDeliveryOrigin | internal/queue/queue.go:97-102 | a send from a group carries that group's outcome to a listening member of that group |
| Queue.ProcessGroupDelivers | internal/queue/queue.go:97-102 | within a group, every listening member is sent the group's outcome |
| Queue.DeliveriesComeFromGroups | internal/queue/queue.go:85-102 | every send of a worker goes to a member of some group and carries that group's outcome |
| Queue.UniqueResultsSameRequest | internal/queue/queue.go:97-99 | with distinct result channels, a channel identifies its request |
| Queue.DeliveredToMember | internal/queue/queue.go:85-102 | every listening member of the i-th group is sent the i-th group's outcome |
| Queue.DeliveredOutcomeIsGroupOutcome | internal/queue/queue.go:85-102 | a listening member is sent its group's outcome, and every send on its channel carries exactly that outcome: all members of a group see the same result |
| Queue.Queue.constructor | internal/queue/queue.go:29-36 | `NewQueue` records the store, buffSize and flush period and starts with an empty, running buffer |
| Queue.Queue.Flush | internal/queue/queue.go:47-55 | the batch is the whole buffer in arrival order, and the buffer is left empty; an empty buffer gives no batch |
| Queue.Queue.Add | internal/queue/queue.go:63-67 | `Add` followed by the loop's receive changes the buffer and returns the batch exactly as `Step` does for a receive |
| Queue.Queue.Tick | internal/queue/queue.go:61-62 | a tick changes the buffer and returns the batch exactly as `Step` does for a tick |
| Queue.Queue.Cancel | internal/queue/queue.go:59-60 | cancellation stops the loop as `Step` does, with no flush |
| Queue.Queue.Worker | internal/queue/queue.go:72-104 | the new table, the group outcomes and the sends are those of `RunGroups` over the old table, for the given iteration order and set of listening callers |
| Service.Route | internal/service/wallet.go:32-41 | DEPOSIT and WITHDRAW, and only those, submit a request with that op, wallet, amount and result channel; anything else is rejected with "unknown operation type: " followed by the op |
| Service.ValidatedRequestIsSubmitted | internal/service/wallet.go:32-38 | a body that passed validation is always submitted, with a positive amount and a non-empty wallet id |
| Service.Await | internal/service/wallet.go:35 | a caller receives something exactly when some send targets its channel, and what it receives was sent on that channel |
| Service.AwaitGetsGroupOutcome | internal/service/wallet.go:33-38 | a listening caller receives exactly its group's outcome |
| Service.NotListeningGetsNothing | internal/queue/queue.go:97-102 | a caller not ready when its group is sent receives nothing from that worker |
| Service.DeliveryIsListening | internal/queue/queue.go:98-101 | every send of a worker goes to a listening caller |
| Service.SoloRequestGetsStoreOutcome | internal/service/wallet_test.go:43-74 | a request alone in its batch receives the store's own answer to its operation, unchanged |
| Service.WalletService.constructor | internal/service/wallet.go:23-25 | `NewWalletService` records the queue and the store; no channel has been made and none is buffered |
| Service.WalletService.ReceiveKeepsChannels | internal/service/wallet.go:27-38 | receiving a request on a channel newer than every buffered one keeps the buffered channels, and any batch that receive flushes, pairwise distinct and older than the next fresh channel |
| Service.WalletService.UpdateBalance | internal/service/wallet.go:27-42 | for DEPOSIT and WITHDRAW, exactly one request is submitted on a fresh channel and the queue moves as `Step` does for its receive; any other op returns `UnknownOperationType(op)` and leaves the queue unchanged; every buffered request waits on a channel this service made, no two on the same one, so every batch it flushes has distinct channels |
| Service.WalletService.GetBalance | internal/service/wallet.go:44-47 | the store's answer is returned unchanged |
| Dto.UpdateWalletBalanceRequest.Validate | internal/http/dto/wallet_dto.go:19-30 | success exactly when walletId is non-empty, the op is DEPOSIT or WITHDRAW, and amount > 0; a missing id is reported first, then a bad op, then a non-positive amount |
| Dto.GetWalletBalanceRequest.Validate | internal/http/dto/wallet_dto.go:46-51 | success exactly when walletId is non-empty, and otherwise "walletId is required" |
| Dto.OperationTypeIsCaseSensitive | internal/http/dto/wallet_dto.go:8-11 | the op must match a constant exactly: "deposit" and "Withdraw" are refused |
| Dto.ValidatedSumPositive | internal/http/dto/wallet_dto.go:26-28 | n validated amounts sum to at least n, so a non-empty sum is positive |
| Middleware.NextEntry | internal/http/middleware/limiter.go:36-47 | an unseen client starts a window at `now` with one try; a window older than the period restarts at `now` with one try; otherwise the window start is kept and the try is counted |
| Middleware.Update | internal/http/middleware/limiter.go:36-47 | only the caller's entry is created or changed, and no entry is removed |
| Middleware.NextEntryIsLocal | internal/http/middleware/limiter.go:36-47 | a client's next entry depends on its own entry alone |
| Middleware.ReplayIsolation | internal/http/middleware/limiter.go:36-47 | clients do not interfere: each client's entry after any interleaving is what its own calls alone make of it |
| Middleware.WindowEntry | internal/http/middleware/limiter.go:36-47 | within one window, opened by a client's first call or by the first call after its previous window expired, the entry keeps that call's time and counts every call, refused ones included |
| Middleware.FixedWindow | internal/http/middleware/limiter.go:36-49 | within one window, whether a client's first or one opened by a reset, the first `limit` calls pass and every later call is refused |
| Middleware.Limiter.constructor | internal/http/middleware/limiter.go:22-28 | `NewLimiter` starts with no entries |
| Middleware.Limiter.CheckConn | internal/http/middleware/limiter.go:30-50 | the table becomes `Update` of the old one, and the call is refused exactly when the caller's tries exceed the limit |
| Middleware.ClientIp | internal/http/middleware/limiter.go:65-77 | a non-empty X-Forwarded-For gives its trimmed text before the first comma; otherwise X-Real-Ip, when non-empty; otherwise RemoteAddr up to its first ':', or all of it when it has none |
| Strings.IndexOf | pkg/env/env.go:158 | the first position of the character, or −1 exactly when it is absent |
| Strings.IndexOfFirst | pkg/env/env.go:158 | the first '=' of `key=value` is right after a key without '=', whatever the value holds |
| Strings.CutBefore | internal/http/middleware/limiter.go:75 | the text up to the first separator, or the whole text when there is none |
| Strings.HasPrefix | pkg/env/env.go:155 | holds exactly when the prefix is no longer than the text and agrees with it position by position |
| Strings.BlanksAreSpaces | pkg/env/env.go:154 | the blanks `TrimSpace` cuts are exactly the characters `unicode.IsSpace` accepts |
| Strings.TrimSpace | pkg/env/env.go:154 | the result has no blank at either end; with `Strings.TrimDropsOnlyCuts`, only the leading and trailing blanks are removed |
| Strings.Trim | pkg/env/env.go:164 | the result has no cut character at either end |
| Strings.TrimLeftSuffix | pkg/env/env.go:162-164 | what trimming the front keeps is a suffix of the input |
| Strings.TrimRightPrefix | pkg/env/env.go:162-164 | what trimming the back keeps is a prefix of the input |
| Strings.TrimLeftDropsOnlyCuts | pkg/env/env.go:162-164 | trimming the front removes only cut characters |
| Strings.TrimRightDropsOnlyCuts | pkg/env/env.go:162-164 | trimming the back removes only cut characters |
| Strings.TrimDropsOnlyCuts | pkg/env/env.go:154-164 | the trimmed text is one contiguous part of the input, and everything before and after it is a cut character: exactly the leading and trailing cut characters are removed |
| Strings.TrimUnchanged | pkg/env/env.go:162-164 | trimming a text whose ends are already kept leaves it unchanged |
| Strings.TrimPadded | pkg/env/env.go:162-164 | cut characters added on either side of a text make no difference to trimming it |
| Strings.TrimAround | pkg/env/env.go:154-163 | trimming a line around a kept separator trims only the front of the part before it and the back of the part after it |
| Strings.TrimQuoted | pkg/env/env.go:164 | a value with no quote at either end, wrapped in double quotes, trims back to itself |
| Strings.HasPrefixChar | pkg/env/env.go:155 | a one-character prefix test checks the first character |
| Strings.TrimKeepsOut | pkg/env/env.go:162 | trimming adds no character |
| Env.ParseLine | pkg/env/env.go:154-167 | a line without '=' gives nothing; a parsed key is non-empty, has no '=' and no surrounding blanks; a parsed value has no surrounding double quotes; what a line with '=' gives is `Env.ParseLineMeaning` |
| Env.ParseTrimmed | pkg/env/env.go:155-167 | the same, for a line already trimmed; `Env.ParseTrimmedAt` states its result for a line whose first '=' is known |
| Env.ParseTrimmedAt | pkg/env/env.go:155-167 | a trimmed line whose first '=' is at i gives nothing when it is a comment or the text before i trims to nothing, and otherwise the trimmed text before i and the trimmed, unquoted text after it |
| Env.ParseLineMeaning | pkg/env/env.go:154-167 | every line with '=' gives the text before its first '=' without surrounding blanks as the key and the text after it without surrounding blanks and then without surrounding double quotes as the value; it gives nothing exactly when that key is empty or starts with '#' |
| Env.ParseLineSkips | pkg/env/env.go:154-157 | a line that is blank after trimming, or starts with '#', is skipped |
| Env.ParseAssignment | pkg/env/env.go:158-164 | `key=value` reads back as exactly (key, value), even when the value itself contains '=' |
| Env.ParseQuotedAssignment | pkg/env/env.go:158-164 | `key="value"` reads back as (key, value), with the quotes removed and whatever blanks or '=' the value holds kept |
| Env.ParseSpacedAssignment | pkg/env/env.go:154-164 | blanks before the key, around '=' and after the value are dropped: the line reads back as (key, value) |
| Env.ParseEnvFile | pkg/env/env.go:151-169 | the scanning loop builds exactly the map of the parsed lines stored one after the other |
| Env.AssignLastWins | pkg/env/env.go:165-167 | a key is stored exactly when some entry has it, and then holds the value of the last such entry |
| Env.ParsedMapLastWins | pkg/env/env.go:165-167 | a key is in the parsed map exactly when some line defines it, and then holds the value of the last line that does |
| Env.ParsedMapHasNoEmptyKey | pkg/env/env.go:165-167 | the empty key is never stored |
| Env.DefaultString | pkg/env/env.go:181-186 | the default is returned exactly when the value is empty (or already equal to it), and the value is returned unchanged exactly when it is non-empty (or the default is empty) |
| Env.GetEnv | pkg/env/env.go:36-41 | a non-empty process variable wins; an unset or empty one gives the file value; the result is empty exactly when neither has a non-empty value |
| Env.Settings | pkg/env/env.go:43-99 | every setting that has a default ends up non-empty |
| Env.ProcessEnvPrecedence | pkg/env/env.go:36-94 | for DB_HOST, DB_PORT, DB_USER, DB_PASSWORD, DB_NAME and DB_SSLMODE a non-empty process variable wins and an empty or unset one gives the file value; for DB_TIMEZONE, QUEUE_BUFF_SIZE and QUEUE_FLUSH_PERIOD the same, and when both are empty the default ("UTC", "50", "100ms") |
| Env.FileOnlySettings | pkg/env/env.go:53-87 | the pool, timeout and rate-limit settings do not depend on the process environment |
| Env.FileSettingsOrDefaults | pkg/env/env.go:53-87 | each pool, timeout and rate-limit setting is the file value when that is non-empty and otherwise its default ("50", "25", "15m", "30s", "100", "1m") |
| Env.Defaults | pkg/env/env.go:43-99 | with nothing set anywhere, every default applies |
| Env.Env.Validate | pkg/env/env.go:108-141 | every empty required setting is reported in one error before any numeric check; then DB_MAX_OPEN_CONNS ≤ 0, DB_MAX_IDLE_CONNS < 0 and QUEUE_BUFF_SIZE ≤ 0 are rejected in that order; success exactly when none applies |
| Env.Env.Missing | pkg/env/env.go:109-125 | at most the five required settings are reported, and none exactly when all five are non-empty |
| Env.Join | pkg/env/env.go:128 | the joined text opens with the first part, closes with the last, and has the separator right after the first part when there are two or more |
| Env.MissingExactly | pkg/env/env.go:109-125 | the reported list holds exactly the required settings that are empty |
| Env.MissingOrder | pkg/env/env.go:111-125 | the list follows the check order: an empty DB_HOST comes first and an empty DB_NAME last, with at most five entries |

## Left out

- Goroutines, channels and `select`. `Add`'s blocking send and the loop's receive become one method, `Queue.Add`. `go q.worker` becomes a method call on the returned batch. The blocking `<-resultChan` becomes `Service.Await` over the worker's sends.
- The race in which a caller is not yet receiving when its group is sent. It appears only as membership in `listening`. Such a caller is skipped for good (`Service.NotListeningGetsNothing`), so in the system it would wait forever.
- `time.Ticker`: ticks are `Tick` events, and the flush period is only recorded.
- Concurrent workers: each worker is modelled on its own, over the table it starts from.
- Database errors (`result.Error`, non-`ErrRecordNotFound` read errors), gorm and Postgres: the store is a map, and `GetBalance` never reports an error.
- Postgres bigint overflow of a balance: balances are unbounded integers.
- Queue.Queue.constructor: requires buffSize > 0. Its one caller passes `QUEUE_BUFF_SIZE`, which `Env.Validate` has already found positive. A zero buffSize, which would flush on every receive, is not modelled.
- Service.WalletService.constructor: requires the queue's buffer to be empty. Its one caller passes the queue `NewQueue` has just made.
- Service.WalletService.UpdateBalance: stops at the submission; what the caller then returns is stated through `Service.Await` and the lemmas beside it. There is no deadline on the wait.
- Middleware.Limiter.CheckConn: takes one clock reading, `now`, where the source calls `time.Now` and then `time.Since`.
- The limiter's mutex and its `Middleware` HTTP wrapper.
- HTTP handlers, routing, the panic recovery middleware, the logger, `cmd/` and the migrations.
- `os.Open`, `bufio.Scanner` and `scanner.Err`: the file is a sequence of lines. `os.Getenv` is a map lookup in which an unset variable reads as "".
- `strconv.Atoi` and `time.ParseDuration`, with their error paths in `LoadFromFile`: the model stops at the raw setting strings (`Env.Settings`). `Env.Env` holds already-parsed numbers, with durations as integers.
- Strings are sequences of characters, not UTF-8 bytes. `IsSpace` is the White_Space set that `unicode.IsSpace` uses, and `Strings.Blanks` holds the same characters.
- Error texts are the `Message` functions. `MissingVars`' text joins the names with ", ", but no lemma is stated about that text.
- Env.MissingOrder: states the ends of the list and its length, not the full pairwise order. The full order is visible in the definition of `Env.Env.Missing`.
- Queue.Dispatch: uses the corrected, overflow-checked total. The wrapping total that the code computes is modelled separately (see Findings).

## Findings

| source | as written | input that shows it | evidently intended | confidence | as-written member | corrected member |
|---|---|---|---|---|---|---|
| internal/queue/queue.go:86-89 | `totalAmount` is an int64 running sum, so a group's total silently wraps around | three DEPOSIT requests to one wallet with amounts MaxInt64, MaxInt64 and 3: the exact sum is 2·MaxInt64 + 3, the int64 total is 1, one deposit of 1 is made, and all three callers are told it succeeded | the group's store call uses the exact sum of its members' amounts; a sum outside int64 fails the group ("amount overflow") with no store call | not executed | Queue.WrappedTotalCounterexample | Queue.CheckedTotal |
