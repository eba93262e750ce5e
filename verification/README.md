# A model of toss-go and its properties

toss-go is a Go client for a brokerage's REST API and realtime websocket. This
project models its concurrent core in Dafny and proves what that core is for:

* **the declare/ack protocol** of the realtime stream (`stream/stream.go`). API
  callers, the declare loop, the read loop, `run` and `Close` interleave freely;
  each critical section is one step, and server frames, write and dial outcomes and
  the passing of time are chosen by the environment;
* **the reconnect policy** (`run`, `backoff`), **the order channel** and the lossy
  channels;
* **the subscription set** with its clone-and-swap updates, its key codec and its
  canonical declaration;
* **the token cache and the retry-once rule**, up to "one order at most per call";
* **the UTF-8-safe cut** used in error messages.

## How it is organised

| file | contents |
|---|---|
| `Mutations.dfy` | the set of full keys as a replayed log of mutations |
| `Declaring.dfy` | the state under `s.mu`: functions on its value, and class `Stream` carrying them out in place |
| `Ids.dfy` | the datatype of ids stands for the texts that travel |
| `Protocol.dfy` | the client as a step machine |
| `Conservation.dfy`, `Batches.dfy`, `Coverage.dfy`, `Pacing.dfy`, `Ownership.dfy` | five parts of the invariant, step group by step group |
| `Safety.dfy`, `Theorems.dfy` | the invariant over all runs, and what follows from it |
| `Acks.dfy` | what the read loop does with an ack or a refusal, over every run from its arrival |
| `Server.dfy`, `Agreement.dfy`, `Truth.dfy` | the client with a server: quiescent agreement, and what a returned `Subscribe` means |
| `Examples.dfy` | two concrete runs that show why the theorems exclude what they exclude |
| `Topics.dfy`, `SubscriptionSet.dfy`, `Declaration.dfy` | key codec, nested map in place, canonical body |
| `Reconnect.dfy`, `Redialling.dfy` | `backoff` in 64-bit arithmetic; the redial policy over whole runs |
| `Channels.dfy`, `Orders.dfy` | `pushLossy`; frames, `dispatch`, the quote channels, and the order channel over many connections |
| `Tokens.dfy`, `Requests.dfy`, `Placing.dfy` | token cache, `do`/`Do`, `Place`/`PlaceAmount` |
| `Truncation.dfy` | `Truncate` |
| `Int64.dfy`, `Wrappers.dfy` | int64 wrap-around; Option and Result |

Code that changes state is a class or a loop, proved equal to functions on plain
values; the properties are lemmas about those functions. The interleavings are in
the step machine, whose steps are the same functions.

## What the proofs found

* **A cancelled interval wait loses callers** (`stream/stream.go:561-566`). The declare
  loop returns with its local slice of waiters, which `failAllWaiters` cannot see.
  `Theorems.WaiterConservation` proves that a registered waiter is accounted for if
  and only if no such exit had it in hand; `Examples.SecondCallIsLost` is a run with
  two calls in which the second is lost, and by `Theorems.LostForever` it is never
  answered: that call returns only when its own context ends or the stream closes.
* **The doubling in `backoff` overflows for some settings.** The delay before jitter
  follows the documented curve if and only if the last doubling that the maximum calls
  for fits in 64 bits (`Reconnect.BackoffFollowsCurve`); every maximum up to 2^62 ns is
  fine. The jittered value is converted from float64, and for a maximum above 5/6 of
  2^63 ns it can be out of range; Go leaves the result to the machine (on amd64 the
  least int64, so the timer fires at once). The options are *tame* when neither
  happens: the last doubling fits and 6·max ≤ 5·2^63.
* **Tame options are exactly the ones with bounded waits and bounded redials.** Every
  wait after the first attempt is at least ⌊4·min/5⌋ and below 6/5·max if and only if
  the options are tame (`Reconnect.DelayBounds`); any two dials are at least
  ⌊4·min/5⌋ apart per dial between them, for every run, if and only if they are tame or
  min is 1 ns (`Redialling.StormBoundExact`).
* **4·min·(N-1) ≤ 5·T holds for every run exactly when the options are tame and min is
  a multiple of 5 ns** (`Redialling.ExactBound`), because the jittered delay is
  truncated to whole nanoseconds.
* **The jitter comes after the cap**, so waits keep to the configured maximum if and
  only if it is at most 5 ns or the largest int64 (`Reconnect.WithinMax`).
* **A declaration refused with another error than a rate limit** leaves client and
  server with different sets although nothing is under way
  (`Examples.RefusalLeavesThemApart`). The source says so for `Subscribe`: the items
  stay in the set and go out with the next declaration.
* The comment at `stream/stream.go:484-486` explains the last default of `pushLossy` by
  a competing consumer. A consumer can only make room: with capacity 1 or more that
  default is taken only if another producer sends between the discard and the last
  select (`Channels.YieldsOnlyToSend`), and then it can be taken at any capacity
  (`Channels.NewestCanYield`). Trades, orderbooks and reconnections have one producer,
  so there the newest event always survives (`Channels.LossyKeepsOrder`); `Errors()`
  has two while a connection is up, and there a new error can be given up.

## Model

| member | source | states |
|---|---|---|
| Mutations.MissingKeyWasRemoved | stream/subscription.go:98-174 | a key in the set at one version and missing at a later one was taken out by a remove, replace or reject in between |
| Declaring.ResolveWaiters | stream/stream.go:676-680 | each distinct, empty channel ends up holding the result; no send finds its slot taken |
| Declaring.OwnRejection | stream/stream.go:196-222 | no error exactly when the ack rejects none of the caller's keys, otherwise the first rejection that names one |
| Declaring.Stream.constructor | stream/stream.go:92-112 | a new stream has no waiters, no batch, no last id and no signal |
| Declaring.Stream.Register | stream/stream.go:269-277 | the caller joins the pending waiters and a signal is set in the same critical section |
| Declaring.Stream.DrainPending | stream/stream.go:529-536 | takes all pending waiters and the signal together |
| Declaring.Stream.Absorb | stream/stream.go:577-583 | the waiters in hand followed by those of every batch, and no batch left |
| Declaring.Stream.AnnounceBatch | stream/stream.go:604-615 | the id is the last id, and all carried waiters hang on it in one batch, or no batch if there are none |
| Declaring.Stream.RollBackTo | stream/stream.go:620-624 | the previous id is back and all batches are handed out |
| Declaring.Stream.Take | stream/stream.go:653-672 | takes out exactly the first batch with this id; an empty id takes nothing |
| Declaring.Stream.SwapConn | stream/stream.go:319-322 | whoever swaps gets the connection, and nobody else can get it again |
| Declaring.Stream.FailAllWaiters | stream/stream.go:685-701 | every pending and every batched waiter is answered once, and none stays behind |
| Ids.SameIdSameText | stream/stream.go:522 | two ids are equal exactly when their texts are: numbering gives distinct texts |
| Ids.EveryTextIsAnId | stream/frames.go:48-59 | every id text a server may echo is the text of some id |
| Ids.AccountAccepted | stream/subscription.go:69-78 | the decimal text of a number is accepted as an account exactly when the number is a positive int64 |
| Safety.StepInv | stream/stream.go:198-745 | every step of every actor keeps the whole invariant |
| Theorems.AnsweredAtMostOnce | stream/stream.go:674-680 | no waiter is answered twice, and whoever holds one may still send to it without blocking |
| Theorems.WaiterConservation | stream/stream.go:529-637 | after any run a registered waiter is held or answered, exactly once in all, if and only if no cancelled interval wait had it in hand |
| Theorems.DropsOnlyByLose | stream/stream.go:561-566 | that exit is the only step that drops a waiter |
| Theorems.NoWaiterLost | stream/stream.go:266-277 | a run without that exit loses nobody |
| Theorems.LostForever | stream/stream.go:685-701 | a waiter lost there is never answered in any continuation |
| Theorems.NoOrphanBatch | stream/stream.go:604-631 | there is at most one batch, its id is the last id, and the ack of that id takes every sent, unanswered waiter; no other id takes any |
| Theorems.AckCoversCall | stream/stream.go:529-538 | whoever is released by the ack of a declaration, or by the write of `[]`, made a mutation its snapshot contains; a key the call had put in and the snapshot lacks was taken out in between |
| Theorems.RefusalCoversCall | stream/stream.go:425-433 | an error frame releases only waiters of the declaration it names, and their mutations are in its snapshot |
| Theorems.NoLostWakeUp | stream/stream.go:266-277 | a waiting caller has a signal, a round that will drain it, or a teardown (or the end of the stream) ahead |
| Theorems.NoSpareRound | stream/stream.go:524-536 | after a drain no further round can start until a call, a timer or a reconnection asks for one |
| Theorems.DeclarationRate | stream/stream.go:553-567 | any two successful declaration writes are 210 ms apart per write between them, so a window of W ms holds at most W/210 + 1 |
| Theorems.FivePerSecond | stream/options.go:19-24 | no second of 1000 ms has more than five successful declarations, and they are 210 ms apart |
| Theorems.StaleStaysStale | stream/stream.go:396-398 | once d-n is registered, an ack fails the check if and only if it names another id, until a later registration or a rollback |
| Acks.AckRejects | stream/stream.go:393-404 | until the next frame, whatever calls come in between: an ack that names another id than the last one takes no key out of the set; any other takes out each key it rejects, in order |
| Acks.AckRejectsOnly | stream/stream.go:393-404 | if no call interferes, the log afterwards is the log before, followed by just those rejections, or unchanged if the ack was stale |
| Acks.NobodyLeftHanging | stream/stream.go:405-433 | once the ack of the last declaration, or an error frame that names it, has been dealt with, no batch of that id is left |
| Acks.ToldAsReceived | stream/stream.go:405-433 | a caller told that its declaration was acknowledged or failed is told so because exactly such a frame was read; a rate limit fails nobody |
| Theorems.RollbackEndsConnection | stream/stream.go:617-631 | a rollback undoes its own registration only, and no further declaration starts on that connection |
| Theorems.RollbackRestores | stream/stream.go:604-624 | after a failed write the last id is again the one before its registration |
| Theorems.IdsNeverReused | stream/stream.go:522 | a later registration has a larger number |
| Theorems.AtMostOneOpenConnection | stream/stream.go:315-323 | at most one dialled connection is unclosed in any reachable state |
| Theorems.ClosedExactlyOnce | stream/stream.go:245-257 | once `run` and any `Close` have returned, every connection ever dialled was closed exactly once and none is open |
| Theorems.CloseBeforeDial | stream/stream.go:315-358 | when `run` dials, no connection is open |
| Theorems.NeverRedials | stream/stream.go:326-331 | without automatic reconnection no connection is dialled after the first |
| Theorems.DialsEndWithClose | stream/stream.go:326-344 | after the stream is cancelled at most the dial under way succeeds, and no other is made |
| Theorems.NoSendAfterClose | stream/stream.go:739-745 | after the channels are closed no goroutine that sends on them can take a step |
| Agreement.SysStepInv | stream/stream.go:369-640 | every step of client and server keeps the agreement invariant |
| Agreement.QuiescentAgreement | stream/stream.go:355-364 | at rest the client's set is what the server delivers, for every interleaving and any number of reconnects, and it holds no rejected key |
| Truth.SubscribeTruth | stream/stream.go:399-407 | for a call released by an ack, each key of its set was accepted, or rejected for being bad, or taken out by a later mutation before the snapshot |
| Truth.NilMeansSubscribed | stream/stream.go:136-159 | a `Subscribe` or `Declare` that returns nil put keys that the server delivered on accepting the declaration, unless a later mutation took them out first; when the empty declaration released it, every one of them had been |
| Examples.SecondCallIsLost | stream/stream.go:559-567 | a run in which the second of two calls is lost while the stream stays open |
| Examples.RefusalLeavesThemApart | stream/stream.go:413-433 | a run after which client and server rest with different sets because a declaration was refused |
| Topics.SplitInverts | stream/subscription.go:271-279 | splitting gives back type and code exactly when both are non-empty and the code has no colon |
| Topics.SplitSound | stream/subscription.go:271-279 | what a split returns is a pair whose full key was split |
| Topics.WellFormedCodable | stream/subscription.go:57-83 | whatever passes the format check has keys that split back |
| Topics.SymbolCharsAre | internal/params/params.go:24-25 | the characters of a symbol are exactly the letters, the digits, dot and hyphen |
| SubscriptionSets.MergeIsUnion | stream/subscription.go:230-242 | merging is union on full keys and leaves no empty inner map |
| SubscriptionSets.RemoveIsDifference | stream/subscription.go:126-137 | removing is set difference on full keys and leaves no empty inner map |
| SubscriptionSets.ReplaceIsAssignment | stream/subscription.go:141-157 | replacing makes the set exactly the given keys |
| SubscriptionSets.RejectIsDeletion | stream/subscription.go:161-174 | rejecting `type:code` removes exactly that key; any other target removes nothing |
| SubscriptionSets.TopicMap.Insert | stream/subscription.go:238-240 | one type's codes grow in place; every other type keeps its own |
| SubscriptionSets.TopicMap.Delete | stream/subscription.go:127-136 | the codes go, and the type with its last code |
| SubscriptionSets.MergeInto | stream/subscription.go:231-242 | the destination map holds the merge; only it and fresh objects change |
| SubscriptionSets.CountTopics | stream/subscription.go:245-251 | the sum of the inner sizes is the number of distinct full keys |
| SubscriptionSets.Clone | stream/subscription.go:218-228 | an equal map that shares no object with the original |
| SubscriptionSets.CheckFormat | stream/subscription.go:99-103 | true exactly when every subscription is well formed |
| SubscriptionSets.SubscriptionSet.AddAll | stream/subscription.go:98-114 | all of it, or an error and the live maps untouched; at most 100 keys |
| SubscriptionSets.SubscriptionSet.RemoveSubs | stream/subscription.go:118-139 | nothing changes on a format error, otherwise exactly the named codes go |
| SubscriptionSets.SubscriptionSet.ReplaceAll | stream/subscription.go:142-157 | all of it, or an error and the live maps untouched; at most 100 keys |
| SubscriptionSets.SubscriptionSet.RejectOne | stream/subscription.go:161-174 | the rejected pair goes, nothing else |
| SubscriptionSets.NestedRefinesSet | stream/subscription.go:85-174 | after any operations the nested map holds exactly the replayed set, without empty inner maps and within the cap |
| SubscriptionSets.RefusedExactly | stream/subscription.go:98-157 | an update is refused exactly for a malformed item or if the set would have more than 100 keys, and then with that number |
| SubscriptionSets.AlwaysChecked | stream/subscription.go:98-174 | no sequence of operations brings in a code its type does not accept |
| Declarations.LessMeans | stream/subscription.go:258 | strings are compared at the first place where they differ |
| Declarations.LessTotal | stream/subscription.go:258 | of two different strings exactly one is less, and none is less than itself |
| Declarations.LessTransitive | stream/subscription.go:258 | the byte order is transitive: with the row above a strict total order, so sorting is unambiguous |
| Declarations.SortedElements | stream/subscription.go:253-269 | strictly ascending, with exactly the map's keys |
| Declarations.Snapshot | stream/subscription.go:184-192 | types and codes strictly ascending, no empty entry, listing exactly the set |
| Declarations.Declaration | stream/subscription.go:198-216 | `[]` exactly when the set is empty; otherwise the id comes first, if there is one, and behind it the canonical listing and nothing else |
| Declarations.BodyTells | stream/subscription.go:204-210 | a body is the one for an id and a list of entries exactly when it has the id first and once, then one element per entry in order |
| Declarations.EqualBodiesEqualIds | stream/subscription.go:197-210 | equal bodies list equal entries, and unless empty carry equal ids |
| Declarations.EqualSetsEqualBodies | stream/subscription.go:194-216 | two sets are equal if and only if their bodies are, whatever their histories |
| Declarations.ReadBack | stream/subscription.go:208-210 | the keys listed by the body are exactly the set |
| Declarations.ReplaceSnapshotIsIdentity | stream/subscription.go:184-192 | replacing the set by its own snapshot changes nothing and cannot fail the format check |
| Reconnect.Backoff | stream/conn.go:47-60 | the loop computes the wrapped, capped and jittered delay, converted to int64 with a machine-dependent result out of range |
| Reconnect.BackoffFollowsCurve | stream/conn.go:43-57 | the delay before jitter is min(max, min·2^(attempt-2)) at every attempt if and only if the last doubling fits in 64 bits |
| Reconnect.SmallMaxFits | stream/conn.go:51-54 | every maximum up to 2^62 fits |
| Reconnect.CurveMonotone | stream/conn.go:43-46 | the curve never falls and never exceeds max |
| Reconnect.DelayBounds | stream/conn.go:51-59 | every wait after the first attempt is at least ⌊4·min/5⌋ and below 6/5 of max if and only if the last doubling fits and 6·max ≤ 5·2^63 |
| Reconnect.WithinMax | stream/conn.go:55-59 | no attempt ever waits longer than max if and only if max is at most 5 ns or the largest int64 |
| Redialling.Configured | stream/stream.go:75-80 | any options give a valid configuration: min is kept or, if not positive, 1 s; max is kept or, if smaller, raised to min |
| Redialling.Redialled | stream/stream.go:337-354 | the dial loop refines its specification: one more attempt and its wait per dial until one succeeds |
| Redialling.Run | stream/stream.go:280-366 | the nested loops refine the specification of attempts, times, causes and notices |
| Redialling.LogMatchesScript | stream/stream.go:284-365 | each dial made is the next one of the script, at the time, with the attempt number and the healthy flag that follow from how long the connections lived; none is left out |
| Redialling.HealthyStartsOver | stream/stream.go:302-363 | after the connection that replaced the one of life k, the first dial is attempt 1 and does not wait exactly when life k lasted at least min; otherwise its number goes up by one |
| Redialling.StormBound | stream/stream.go:297-302 | for tame options, or a min of 1 ns: between dial i and dial j at least j-i-1 pauses of ⌊4·min/5⌋ pass, whatever connections and dials do |
| Redialling.StormBoundExact | stream/stream.go:297-302 | that holds for every run if and only if the options are tame (the last doubling fits and 6·max ≤ 5·2^63) or min is 1 ns |
| Redialling.ExactBound | stream/stream.go:339-344 | 4·min·(N-1) ≤ 5·T holds for every run if and only if the options are tame and 5 divides min |
| Redialling.FreeDials | stream/stream.go:361-363 | a dial is a first attempt exactly when it is the first of all or follows directly on a successful dial that replaced a healthy connection; those after the first are no more than such connections |
| Redialling.OthersPause | stream/stream.go:339-344 | every other dial comes at least ⌊4·min/5⌋ after the one before, in every run, if and only if the options are tame or min is 1 ns |
| Redialling.CauseSurvivesDials | stream/stream.go:333-364 | the k-th reconnection reports why the k-th connection ended, however many dials failed |
| Redialling.NoticesMatchDials | stream/stream.go:355-364 | every successful redial is reported once and in order, with the number of its attempt |
| Channels.Channel.PushLossy | stream/stream.go:487-500 | three selects with any receives between them; always returns |
| Channels.PushKeeps | stream/stream.go:484-500 | a push appends its event; it loses one only from a full buffer, and then the oldest not yet received |
| Channels.LossyKeepsOrder | stream/stream.go:484-500 | with one producer and under any consumer, received and buffered events are in order a selection of the pushed ones that ends in the newest |
| Channels.LossyKeepsNewest | stream/stream.go:484-500 | without a consumer the buffer is exactly the last cap pushes |
| Channels.RoomForNewest | stream/stream.go:67-74 | with one producer the newest push always survives if and only if the capacity is at least 1 |
| Channels.YieldsOnlyToSend | stream/stream.go:491-498 | with other producers and consumers between the selects, the last select finds room unless someone sends between it and the discard |
| Channels.NewestCanYield | stream/stream.go:729-731 | at any capacity a second producer's send in that moment makes the push lose the oldest event and its own |
| Orders.DeliversExactly | stream/frames.go:185-203 | exactly the messages on personal:order with an int64 account, an event name and an order id are delivered, with their own contents |
| Orders.QuotesExactly | stream/frames.go:114-173 | exactly the messages with a complete trade or an orderbook on one of the four known topics are pushed, with market and symbol of the topic, each to its own channel |
| Orders.AnnouncesExactly | stream/frames.go:82-91 | exactly the error frames with code server-shutdown announce a shutdown |
| Orders.Dispatch | stream/stream.go:449-482 | false only for an order event that finds the channel full; a quote goes to its own lossy channel; every other channel stays as it was |
| Orders.ReadLoop | stream/stream.go:369-446 | the loop refines the reading of one connection, and each lossy channel gets exactly the quotes of the frames handled, in order |
| Orders.ReadGapFree | stream/stream.go:465-475 | one connection adds exactly its order events, in order and without a gap, up to the first that finds the channel full |
| Orders.ReadExplained | stream/stream.go:370-441 | it ends with Backpressure exactly when it dropped an order event, with ServerShutdown exactly when it ended otherwise after that announcement |
| Orders.OrdersGapFree | stream/stream.go:309-364 | over any number of reconnections both hold for each connection, and each reconnection carries its own connection's cause |
| Tokens.TokenSource.Token | internal/auth/token.go:72-86 | a cached token with more than 60 s left, or a newly issued one which is then cached |
| Tokens.UsableUntilMargin | internal/auth/token.go:72-86 | a token issued for n seconds is answered from the cache exactly until n - 60 seconds after it was asked for |
| Tokens.UsedWhileGranted | internal/auth/token.go:72-86 | in every run with fresh tokens the cached one is used exactly while more than 60 s of its granted lifetime are left, if that fits in an int64 of nanoseconds |
| Tokens.TokenSource.Invalidate | internal/auth/token.go:91-98 | the cache is emptied only if it holds this very token |
| Tokens.IssuesAccounted | internal/auth/token.go:71-98 | if the endpoint never issues a token twice, over any interleaving: tokens issued = cached now + replaced because of the margin + distinct tokens invalidated while cached |
| Tokens.OneReissue | internal/auth/token.go:88-98 | if the endpoint never issues a token twice, any number of simultaneous rejections of one token cost at most one reissue beyond those of the margin |
| Tokens.CachedAnswersLast | internal/auth/token.go:75-84 | an answer from the cache is good for more than 60 s by the granted lifetime, for every int64 lifetime and fresh tokens |
| Tokens.NewerSurvives | internal/auth/token.go:88-98 | a usable token stays cached through any requests and any invalidations of other tokens |
| Tokens.NeverAgain | internal/auth/token.go:88-98 | if the endpoint never issues a token twice, a token given up is never cached again |
| Requests.Client.Attempt | internal/httpclient/client.go:165-213 | one round, and at most one more after a token error, with other callers in between |
| Requests.Client.Do | internal/httpclient/client.go:125-158 | the caller's result and the sends are those of the specification; an absent method is GET |
| Requests.SentAtMostTwice | internal/httpclient/client.go:205-223 | a request is sent at most twice, unchanged; a write without a key once |
| Requests.RepeatedExactly | internal/httpclient/client.go:165-223 | a call is repeated exactly when its first reply is 401 with one of the two token codes, it is a GET or has a key, and both rounds get a token; its result is that of the last reply |
| Requests.DoAnswers | internal/httpclient/client.go:137-157 | a value comes back exactly when one was asked for and the reply has one; without asking, any success will do |
| Requests.RetryUsesAnotherToken | internal/httpclient/client.go:206-210 | if the endpoint never issues a token twice, the retry carries a token other than the rejected one, whatever others do to the cache in between |
| Requests.RejectedTokenDropped | internal/httpclient/client.go:206-207 | a call that returns a token error leaves its last token uncached, retried or not |
| Requests.AtMostOneOrder | internal/httpclient/client.go:219-223 | against every server a request creates at most one order if and only if it is never repeated or its body holds the key the server recognises it by |
| Placing.Submit | order/place.go:85 | an invalid request is refused without being sent; a valid one is one call |
| Placing.BuiltAsAsked | order/place.go:52-85 | a request is built exactly for orderly input, and carries the caller's account, symbol, side, type, quantity, price if not zero, time in force, confirmation and key, and no amount |
| Placing.BuiltAmountAsAsked | order/place.go:94-116 | the same for an amount: a market order without quantity, price or time in force |
| Placing.KeyCharsAre | internal/params/params.go:76-77 | the characters of a key are exactly the letters, the digits, hyphen and underscore |
| Placing.PlaceOnce | order/place.go:52-86 | one `Place` creates at most one order: sent once without a client order id, otherwise at most twice with the id both in the body and as the retry key |
| Placing.PlaceAmountOnce | order/place.go:94-117 | the same for `PlaceAmount` |
| Truncation.Truncate | internal/strutil/strutil.go:10-19 | the loop steps back to where a character starts |
| Truncation.TruncatesToLongest | internal/strutil/strutil.go:9-19 | for valid UTF-8 the result is the longest valid prefix of the collapsed text of at most n bytes |
| Truncation.TruncatesToPrefix | internal/strutil/strutil.go:12-18 | for any bytes it is a prefix of the collapsed text of at most n bytes, all of it if it fits, with no character start skipped |
| Truncation.CollapseKeepsWords | internal/strutil/strutil.go:11 | collapsing keeps the words in their order, so doing it twice changes nothing |
| Truncation.CollapsedBlanks | internal/strutil/strutil.go:11 | the only white space left is single blanks, none at an end and no two in a row |
| Truncation.SpaceIsUnicode | internal/strutil/strutil.go:11 | the octet patterns taken for white space are those of exactly the code points with that Unicode property |

## Left out

- Agreement.QuiescentAgreement: excludes a last declaration refused with another error than a rate limit, since the server then keeps its old set; `Examples.RefusalLeavesThemApart` shows the case.
- Agreement.QuiescentAgreement: the server of `Server.dfy` applies declarations in order, echoes ids in acks and rejects a fixed set of keys; how a real server chooses them is not modelled.
- Requests.AtMostOneOrder: the server remembers keys forever; the ten-minute window of the real one is not modelled.
- Requests.Client.Do: a body that cannot be encoded as JSON fails before anything is sent and is not modelled.
- Reconnect.Backoff: the random factor and the product are real numbers, the factor in [4/5, 6/5); rounding of float64 is not modelled, which near 2^63 can shift a bound by a thousand nanoseconds or so.
- Theorems.NoLostWakeUp: safety only; that a signalled loop is eventually scheduled is not stated.
- Declarations.Declaration: the body is a list of elements; JSON text, and with it the error of `json.Marshal` on strings, which cannot occur, is not modelled.
- Declarations.SortedElements: `sort.Strings` is represented by insertion into a sorted list.
- Channels.Channel.PushLossy: a channel of capacity 0 with a receiver already waiting is not modelled; `New` never makes one.
- Truncation.Truncate: a negative n, for which the source panics, is outside the type of the parameter.
- The declare loop's counter and its drain are one step; nothing else reads the counter.
- Contents and number of the reports on `Errors()`, and the values inside trades, orderbooks and orders.
- `pingLoop` beyond ending a connection; sockets, TLS and HTTP transport; real timers and fairness.
- `Ids.dfy` covers non-negative numbers only, which is all the counter yields.
- The other REST groups (market data, assets, order history, conditional orders), parameter encoding, error parsing, environment loading: thin code with single-branch checks.
