# x402-iot-poc in Dafny

A seller (a Cloudflare Worker) sells sensor readings and classifications to an autonomous
buyer for testnet USDC over x402. This project models the parts of both sides that guard
money, identity and records, and proves what they keep in every run.

| module | models |
|---|---|
| `Agent`, `AgentLoop`, `AgentRun`, `HonestSeller`, `SellerRun`, `Budget` | the buyer's loop, outcome by outcome, its ledger and its rolling 24 hour cap, against any seller, against one that takes at most its price, and against this one |
| `PaidRoute`, `PaidRequest`, `Settlement`, `Receipts`, `LostReceipts`, `Replay` | replay check, handler, settlement, receipt log and delivery, for any number of requests at once |
| `RateLimiter`, `RateLimitGate` | the sliding-window limiter and the gate of two buckets in front of the paid routes |
| `Json`, `Canonical`, `CanonicalText`, `Utf8`, `Base64Url`, `CardSigning`, `CardFormat`, `CardVerification` | the signed Agent Card: canonical JSON (RFC 8785), base64url (RFC 4648), the JWS input (RFC 7515), and both verifiers |
| `Mandate`, `MandateCodes`, `MandateAgreement` | the spending mandate as the buyer checks it, as it crosses the wire, and as the seller checks it |
| `Price`, `Negotiation` | the price readers, and the negotiation that never discounts |
| `Feed`, `FeedRuns` | the live settlement feed: server cursor, page cursor, stale reads, lost streams |
| `Payers`, `Metrics` | who pays, by receipt aggregation, and the daily figures |
| `DeviceTwin` | the Durable Object that produces readings |
| `Csv` | the subscriber export and an RFC 4180 reader for it |
| `Jsonc` | the comment stripper and comma replacement of the local development script |
| `Options`, `Seqs`, `Texts` | shared small things |

Code that changes state is a class or a method with the source's loops, proved equal to a
function of the old state. The results are lemmas about those functions: over every input,
every run, or every interleaving.

## What the proofs found

Where a promise does not hold for all inputs, a lemma says exactly when it does.

- The spending cap holds up to what a seller takes beyond the buyer's own ledger lines
  (`AgentRun.CapHolds`). A charge of at most the price is covered by its line if and only if the
  price is a number and the answer is 200 or gets lost (`AgentRun.ChargeCountedIff`). Without a
  number, the seller can take any amount uncounted (`AgentRun.UnparsedPriceBreaksCap`). Against
  a seller that takes at most its price, the cap holds up to what is taken after error answers
  (`HonestSeller.CapHoldsIfFair`), which has no bound (`HonestSeller.ErrorAnswersBreakCap`). This
  seller, at its list prices, is one of those (`SellerRun.CapHoldsAtListPrice`,
  `SellerRun.ErringWithSeller`).
- The handler runs at most once for a proof, or for an authorization, in every interleaving if
  and only if one request at most carries it (`Replay.OnceIffOneCarrier`). With undisturbed
  checks a proof runs it once (`Replay.UndisturbedRunsOnce`), and an authorization if and only
  if the headers that carry it have one replay key (`Replay.UndisturbedOnceIffOneKey`): two
  headers of one authorization both run it (`Replay.TwoHeadersRunTwice`). An authorization still
  settles at most once, and is delivered at most as often as it settled
  (`Settlement.EveryInterleaving`).
- A receipt is lost exactly if one is written over a log that is no longer the newest
  (`LostReceipts.NothingLostIff`, `LostReceipts.EveryReceiptKeptIff`). Two payments whose
  recordings overlap do that (`LostReceipts.ReceiptIsLost`).
- The two card verifiers disagree on one family of cards (`CardVerification.VerifiersAgree`,
  `CardVerification.HugeCardDiffers`), though never about acceptance
  (`CardVerification.BothAccept`). A signed card is refused, with both verifiers throwing,
  exactly if an earlier entry claims the key with a signature that does not decode and nothing
  before that entry verifies (`CardVerification.SignedCardAccepted`); such an entry needs no
  key (`CardVerification.BadEntryBlocks`).
- The readers of a price variable agree exactly if it is set and not empty
  (`Price.ReadersAgreeIff`).
- The comment in `scripts/dev-local.mjs` limits the stripper to what is outside strings. The
  comma replacement does not keep to that: it also edits strings (`Jsonc.StringsSurvive`,
  `Jsonc.StringLosesComma`).
- The buyer accepts mandates that the seller calls malformed: expiries that are not strings
  and caps that are no finite numbers (`MandateAgreement.SellerAgrees`,
  `MandateAgreement.NumericExpiryRefused`). The seller reads the header as Latin-1, so a mandate
  that is not ASCII arrives changed (`MandateAgreement.ReadAsWritten`,
  `MandateAgreement.AccentArrivesAsTwo`).
- `src/types.ts:11` says readings are numbered from 1. A read that comes before the first tick
  makes the first number 0 (`DeviceTwin.StartsAtOne`).
- `first_seen` is the earliest timestamp unless the payer's first receipt has none
  (`Payers.FirstSeenIsEarliest`, `Payers.FirstWithoutTime`).
- The feed shows the latest event, not every event: one that no poll reads is never shown
  (`FeedRuns.NeverReadNeverShown`), and one that a poll reads is shown exactly if it is newer
  than the stream's cursor or was sent before (`FeedRuns.FreshPollShows`).
- A limiter's alarm is not set again after it fired, so a bucket is cleaned up exactly if the
  alarm comes a window after the last allowed hit, as the one set by the last event does
  (`RateLimiter.AlarmEmpties`).

## Assumptions

- Money is in whole micro-USDC and time in milliseconds; clocks do not run backwards.
- One agent writes one ledger, with a constant cap, from a ledger that respects the cap, and
  does not exit in the middle of a payment. A transfer executes after its check and at most a
  delay after its payment was written down (`AgentRun.Plausible`). It may execute whatever the
  answer was.
- The payment middleware verifies, runs the handler, submits only below status 400 and
  delivers only what it saw settle (`src/paid-route.ts:336-346`). The chain executes an
  authorization once (EIP-3009) and gives each transfer its own transaction hash.
- KV is not atomic and reads may be stale by any amount. Durable Objects take one event at a
  time. At most one feed stream is open per page.
- JSON.parse, TextDecoder, SHA-256, ECDSA, address recovery and date parsing are parameters;
  what is assumed of them is stated in `CardVerification.Faithful` (of the parser: that it reads
  back the protected headers that `signCard` prints), `CardVerification.OnlySigned`
  and `MandateAgreement.RoundTrips`. Configuration values are the ones the environment supplies.

## Model

| member | source | states |
|---|---|---|
| Budget.SpentInWindow | buyer/budget.mjs:32-43 | the loop returns the sum of the numeric prices of spends inside (now − window, now], whatever else the ledger holds |
| Budget.LaterSpendsLess | buyer/budget.mjs:32-43 | a window that moves on past the last entry only loses spends |
| Budget.AppendKeepsCap | buyer/agent.mjs:270-312 | a spend checked at one time and appended later keeps the sum of every window within the cap |
| Agent.BuyerAgent.constructor | buyer/agent.mjs:136-193 | a process starts with the ledger it finds and with fresh counters |
| Agent.BuyerAgent.AppendLedger | buyer/agent.mjs:93-96 | one line more, nothing else |
| Agent.BuyerAgent.ReadRunningTotal | buyer/agent.mjs:99-109 | the rolling 24 hour sum over the lines that parse |
| Agent.BuyerAgent.FindAffordable | buyer/agent.mjs:228-256 | the offers in scope, then those whose counter-offer was accepted, at the price of the counter-offer |
| Agent.BuyerAgent.Settle | buyer/agent.mjs:287-376 | what each kind of answer does to ledger, cursor and error counter |
| Agent.BuyerAgent.OnePurchase | buyer/agent.mjs:199-376 | one purchase is the specified step of the run: refusals pay nothing, the cap is checked before paying |
| Agent.BuyerAgent.RunLoop | buyer/agent.mjs:382-428 | the loop is the specified run, of which `AgentLoop` says what each outcome does |
| AgentLoop.OutcomeIff | buyer/agent.mjs:199-376 | the exact condition of each of the twelve outcomes: kill switch, mandate, card, scope, cap, and the seller's answer |
| AgentLoop.PurchaseLeaves | buyer/agent.mjs:199-376 | a purchase leaves the one ledger line of its outcome or none, a payment exactly if it got as far as paying, and a cursor moved on exactly if an offer was picked |
| AgentLoop.AffordableIff | buyer/agent.mjs:228-256 | the agent picks from exactly the offers within its limit, and those beyond it whose counter-offer was accepted, at the limit; so never above the limit |
| AgentLoop.PicksInTurn | buyer/agent.mjs:226-268 | the next purchase is about the next offer in turn, and after the last about the first |
| AgentLoop.LoopStops | buyer/agent.mjs:399-409 | after the kill switch, the cap, an invalid or refused mandate, a refused card or nothing in scope, the run is over |
| AgentLoop.LoopGoesOn | buyer/agent.mjs:411-428 | after each of the other six outcomes it goes on with the next round, and counts the errors that are worth a retry |
| AgentLoop.EveryFifthPauses | buyer/agent.mjs:411-419 | of n errors in a row exactly every fifth writes a pause into the ledger and starts the count again |
| AgentRun.PurchaseKeeps | buyer/agent.mjs:199-376 | one purchase, whatever the seller does, keeps the invariant of the run: ledger windows within the cap, every recorded payment in the ledger, every payment checked |
| AgentRun.SessionsKeep | buyer/agent.mjs:396-428 | so does every session of every run, across restarts |
| AgentRun.OnChainBound | buyer/agent.mjs:270-312 | if transfers execute at most δ after their line, what leaves the wallet in any window of 24 h − δ is at most the cap and what was taken beyond the lines |
| AgentRun.CapHolds | buyer/agent.mjs:270-365 | in every run, against every seller, the ledger counts at most the cap in any 24 hours, counts exactly its payments, and the wallet stays within the cap up to what transfers took beyond their lines; within the cap if each is covered |
| AgentRun.ChargeCountedIff | buyer/agent.mjs:297-365 | in every state, a charge of at most the price is covered by its ledger line, and counted in every window around it, if and only if the price parsed and the answer was 200 or got lost; else no ledger total changes |
| AgentRun.UnparsedPriceBreaksCap | buyer/agent.mjs:182-183 | in every state whose round pays without a parsed price, a seller that answers 200 or is not heard can take any amount past the cap, and no ledger total changes |
| HonestSeller.CapHoldsIfFair | buyer/agent.mjs:270-365 | in every run against any seller whose prices parse and that takes at most its price, the wallet stays within the cap and what was taken after error answers; within the cap if nothing was |
| HonestSeller.ErrorAnswersBreakCap | buyer/agent.mjs:317-365 | in every state in which the agent can pay for its offers, n rounds answered with an error while the transfer executes are plausible and fair, take n prices, and leave every ledger total as it was: so they pass any cap |
| SellerRun.PurchaseFair | buyer/agent.mjs:228-312 | a purchase from this seller takes exactly the price the agent checked, and is covered by its ledger line exactly if the answer is 200 or gets lost |
| SellerRun.CapHoldsAtListPrice | buyer/agent.mjs:228-312 | so in every run with this seller's card, answers and list prices, at most the cap and what was taken after error answers leaves the wallet in any window of 24 h − δ |
| SellerRun.ErringWithSeller | src/paid-route.ts:336-346 | the rounds that pass the cap after error answers are rounds with this seller at its list prices |
| PaidRoute.Store.RecordSettlement | src/paid-route.ts:176-214 | exactly a decodable, successful response with a transaction is recorded; then a receipt with its payer, transaction, price, resource and time stands in front of the newest 99, and the latest event is this one |
| PaidRoute.RecordedIs | src/paid-route.ts:176-199 | the same of the log as a value: which responses are recorded, and each field of the receipt |
| PaidRequest.SettlesIffBelow400 | src/paid-route.ts:336-346 | a handler answer is settled exactly if it is below 400, and the resource delivered exactly if the settlement was reported; after another answer nothing happens |
| PaidRequest.LateSettlementUndelivered | src/paid-route.ts:336-346 | a transfer executed after the middleware gave up is a settlement, and nothing is delivered for it |
| PaidRequest.ReplayRefused | src/paid-route.ts:348-358 | a proof whose key is read back is answered with 402 and never reaches the handler |
| Settlement.RequestStepKeeps | src/paid-route.ts:295-358 | every single step of every request keeps the invariant that ties phases to recorded facts |
| Settlement.RunKeeps | src/paid-route.ts:227-358 | and so does every interleaving of any number of requests |
| Settlement.SettlesOnce | src/paid-route.ts:323-358 | in a lawful trace an authorization settles at most once, whichever headers encode it |
| Settlement.OneSettler | src/paid-route.ts:323-358 | that settlement belongs to one request |
| Settlement.DeliveriesBounded | src/paid-route.ts:336-346 | an authorization is never delivered more often than it settled |
| Settlement.EveryInterleaving | src/paid-route.ts:332-358 | in every interleaving: deliveries ≤ settlements ≤ 1 for each authorization, and each settlement follows a handler answer below 400 and the write of its replay key |
| Settlement.FailedNeverSettles | src/paid-route.ts:336-346 | a request whose handler answered 400 or above is never settled |
| Receipts.EveryVersionGood | src/paid-route.ts:195-199 | every value the log ever has, in every interleaving: at most 100 receipts, no transaction twice, each from a settlement |
| Receipts.SerialIsNewest | src/paid-route.ts:176-199 | called one at a time with any mix of successful, failed and undecodable responses, `recordSettlement` keeps exactly the newest 100 successes, newest first |
| Receipts.SerialScheduleIsNewest | src/paid-route.ts:195-199 | in every schedule of the route's steps in which a log is read fresh and written at once, the log ends as exactly the newest 100 of the recorded settlements |
| LostReceipts.NothingLostIff | src/paid-route.ts:195-199 | in every interleaving, the log is at every moment exactly the newest 100 of the receipts written so far, newest first, if and only if every receipt was written over the newest log |
| LostReceipts.EveryReceiptKeptIff | src/paid-route.ts:195-199 | while the log is not cut, its last value has as many receipts as there were and were written, and is all of them in order, if and only if every receipt was written over the newest log; else it has fewer |
| LostReceipts.UndisturbedIsRecorded | src/paid-route.ts:185-199 | a log read fresh and written at once gets exactly what `recordSettlement` records for that request |
| LostReceipts.OverlapLosesReceipt | src/paid-route.ts:195-199 | in every reachable state, two reported settlements that both read the newest log before either writes: both settled, and no receipt of the first is left |
| LostReceipts.ReceiptIsLost | src/paid-route.ts:176-199 | from the start, for any two payments with different authorizations, a whole schedule that ends so |
| Replay.RunsPerRequest | src/paid-route.ts:348-358 | in every interleaving, the handler runs at most once for each request that carries a proof, or that carries an authorization |
| Replay.OnceIffOneCarrier | src/paid-route.ts:348-358 | every interleaving of some arriving requests runs the handler at most once for a proof, or for an authorization, if and only if at most one of them carries it |
| Replay.RaceRunsTwice | src/index.ts:138-149 | from any state, two requests of one proof or authorization that have just arrived have a schedule in which the handler runs for both |
| Replay.UndisturbedRunsOnce | src/paid-route.ts:348-358 | in every schedule of the real steps whose key reads are fresh and whose writes follow their reads at once, a proof runs the handler at most once |
| Replay.UndisturbedOnceIffOneKey | src/paid-route.ts:348-358 | every such schedule of some arriving requests runs the handler at most once for an authorization if and only if the headers that carry it have one replay key |
| Replay.TwoHeadersRunTwice | src/paid-route.ts:348-358 | two headers of one authorization with different keys, presented one after the other, both run the handler |
| RateLimiter.RateLimiter.constructor | src/rate-limiter.ts:72-81 | a new bucket is empty and has no alarm |
| RateLimiter.RateLimiter.Hit | src/rate-limiter.ts:79-90 | a hit stores the pruned list, with the new time if allowed, and sets the alarm one second past the window |
| RateLimiter.RateLimiter.Alarm | src/rate-limiter.ts:92-101 | an alarm stores the fresh times, or deletes everything when none is left; it is then no longer pending |
| RateLimiter.HitKeepsInv | src/rate-limiter.ts:79-90 | a hit keeps the stored list the sorted recent part of all allowed hits, never longer than the quota |
| RateLimiter.AlarmKeepsInv | src/rate-limiter.ts:92-101 | so does an alarm, which forgets nothing that matters |
| RateLimiter.AnswerIsNaive | src/rate-limiter.ts:55-70 | the pruned list answers as the list of all allowed hits would |
| RateLimiter.PrunedIsNaive | src/rate-limiter.ts:79-101 | over every sequence of hits and alarms the limiter agrees with one that never forgets |
| RateLimiter.QuotaHolds | src/rate-limiter.ts:55-70 | any interval (t − window, t] of any run holds at most quota allowed hits |
| RateLimiter.RetryAfterTight | src/rate-limiter.ts:63-65 | after a refusal with r, a hit r seconds later is allowed and one at most r − 1 seconds later is refused, alarms or not |
| RateLimiter.MaxIsIdle | src/rate-limiter.ts:64 | the maximum with 1 never changes the value |
| RateLimiter.AlarmEmpties | src/rate-limiter.ts:85-101 | an alarm empties a bucket exactly if its last allowed hit has left the window, which it has when the alarm set by the last event fires |
| RateLimitGate.ConfigIsValidIff | src/paid-route.ts:136-138 | the settings give a positive window and quotas exactly if none is negative |
| RateLimitGate.ConfigFields | src/paid-route.ts:136-138 | a setting that is not zero is taken as it is, the window from seconds; else the window is a minute and the quotas 60 and 10 |
| RateLimitGate.Gate.Enforce | src/paid-route.ts:134-161 | the IP bucket is asked first, then the payer's; the first refusal ends the request |
| RateLimitGate.ContinuesIff | src/paid-route.ts:146-160 | a request on its own continues exactly if fewer than `ipQuota` requests of its IP, and fewer than `payerQuota` of its payer, used a slot in the last window |
| RateLimitGate.EnforceIsSchedule | src/paid-route.ts:149-160 | that loop is one schedule of the interleaved system, with the same outcome |
| RateLimitGate.RunKeeps | src/paid-route.ts:134-161 | every interleaving of requests and alarms keeps each bucket's history equal to the slots its requests used |
| RateLimitGate.GateQuotas | src/paid-route.ts:134-161 | in every interleaving at most `ipQuota` requests of an IP and at most `payerQuota` of a payer pass in any window, and a payer refusal still uses an IP slot |
| RateLimitGate.RefusesExactlyAtQuota | src/paid-route.ts:146-160 | after every interleaving an IP is let through exactly if fewer than `ipQuota` slots were used in the last window, and a payer exactly if fewer than `payerQuota` were |
| Canonical.PrefixFree | src/card-signing.ts:51-65 | canonical texts are uniquely parseable: one can be cut off the front of a text in one way only |
| Canonical.Injective | src/card-signing.ts:51-65 | equal canonical texts come from values equal up to member order, at every depth |
| Canonical.SamePrints | src/card-signing.ts:51-65 | values equal up to member order have one canonical text |
| Canonical.CanonicalIffSame | src/card-signing.ts:51-65 | both directions together |
| CanonicalText.MembersAscend | src/card-signing.ts:61-64 | an object's text consists of exactly its defined members, with keys ascending by UTF-16 code unit (section 3.2.3 of RFC 8785) |
| CanonicalText.ScalarsPrint | src/card-signing.ts:52-57 | the literals, a number, and a string with and without escapes, character by character |
| CanonicalText.TwoItems | src/card-signing.ts:58-60 | items between brackets with a comma, an undefined one as null |
| CanonicalText.TwoMembers | src/card-signing.ts:61-64 | members between braces, the smaller key first, whichever was written first |
| Canonical.WirePrints | src/card-signing.ts:58-63 | a JSON trip, which drops undefined members and makes undefined items null, keeps the canonical text |
| Utf8.EncodeInjective | src/card-signing.ts:95 | UTF-8 is injective on well-formed texts |
| Utf8.PrintUtf16 | src/card-signing.ts:51-65 | canonical text is well-formed UTF-16, lone surrogates being escaped |
| Base64Url.EncodeBase64Url | src/card-signing.ts:67-73 | the loop returns a text of URL-safe letters that `base64urlToBytes` decodes to the same bytes |
| Base64Url.RoundTrip | src/card-signing.ts:67-79 | decoding what was encoded gives the same bytes, for every byte string |
| Base64Url.PaddingFits | src/card-signing.ts:76 | the padding expression is right for every length not 1 modulo 4 |
| Base64Url.PaddingOneOver | src/card-signing.ts:76-77 | a text of length 1 modulo 4 without white space never decodes |
| Base64Url.UrlAlphabet | src/card-signing.ts:72 | only the URL-safe alphabet is produced: no '.', '+', '/' or '=' |
| Base64Url.AcceptedText | src/card-signing.ts:75-79 | what the decoder accepts is ASCII without a '.' |
| CardSigning.VerifyCard | src/card-signing.ts:142-172 | the seller's loop gives the verdict of the first entry that decides: accept, reject or throw |
| CardSigning.BuyerVerifyCard | buyer/card-verify.mjs:55-84 | the buyer's loop likewise, with the payload encoded before it |
| CardFormat.PublicKeyHas | src/card-signing.ts:81-84 | the public key has kty, crv, x and y of the key and no other member |
| CardFormat.ThumbprintIs | src/card-signing.ts:86-90 | the thumbprint digests exactly the text of crv, kty, x and y, in that order (RFC 7638) |
| CardFormat.HeaderHas | src/card-signing.ts:115-120 | the protected header has the algorithm, the type, the key, and the key's location if there is one |
| CardFormat.InputIs | src/card-signing.ts:92-96 | what is signed is the protected text, a dot, and the base64url form of the card's canonical text without signatures |
| CardFormat.OwnCardAccepted | src/card-signing.ts:103-135 | the card that `signCard` returns, sent as JSON, is accepted by both verifiers |
| CardFormat.AcceptedIff | src/card-signing.ts:142-172 | a card is accepted exactly if some signature names ES256 and the pinned key and verifies over the card, with none before it that names them and cannot be read; and unsigned exactly without a nonempty array of signatures |
| CardVerification.VerifiersAgree | buyer/card-verify.mjs:55-84 | the verdicts are equal exactly outside the family: signed, importable key, a non-finite number, and no entry claiming the key |
| CardVerification.HugeCardDiffers | buyer/card-verify.mjs:64-65 | a card of that family: a number too large for a double and a null signature entry; the seller rejects it and the buyer throws |
| CardVerification.BothAccept | buyer/card-verify.mjs:55-84 | seller and buyer accept the same cards |
| CardVerification.AcceptedWasSigned | src/card-signing.ts:93-172 | if only signed messages verify, an accepted card is, without signatures and up to member order, a card that was signed with the pinned key |
| CardVerification.SignedCardAccepted | src/card-signing.ts:103-172 | after the wire and among other signatures, both verifiers throw on a signed card exactly if an earlier entry claims the key with an undecodable signature and none before it verifies; else both accept |
| CardVerification.BadEntryBlocks | src/card-signing.ts:162-168 | the entry with the seller's own protected header and the signature "!", put in front on any card, makes both verifiers throw |
| MandateCodes.MalformedIff | src/mandate.ts:72-114 | exactly the headers that are not base64 of JSON with a body, a signature and fields of the right types are malformed |
| MandateCodes.SellerCodes | src/mandate.ts:116-164 | for a readable mandate, the exact condition of each of the seller's six codes and of acceptance: signer, payer, expiry, caps at most zero, price above the limit, other origin, in that order |
| MandateCodes.AboveLimitRejected | src/mandate.ts:148-150 | a price above a finite limit is never accepted |
| MandateCodes.BuyerReasons | buyer/mandate.mjs:61-96 | the exact condition of each of the buyer's reasons and of validity, the expiry before the signature |
| MandateCodes.FalsyAre | buyer/mandate.mjs:62-64 | what counts as a missing body or signature |
| MandateCodes.InScopeIff | buyer/mandate.mjs:102-110 | with a finite limit the prices in scope are exactly those up to it |
| MandateAgreement.IdentityBeforeAuthorization | src/mandate.ts:96-164 | the seller's half of `SellerAgrees`: 401 exactly for readable mandates that fail identity, whatever else fails; accepted exactly if readable, identified and authorized; malformed exactly if unreadable |
| MandateAgreement.AtobBtoa | buyer/agent.mjs:130 | standard base64 decodes to the same bytes |
| MandateAgreement.ReadAsWritten | src/mandate.ts:72-81 | the seller parses the text the buyer wrote exactly if it is ASCII |
| MandateAgreement.AccentArrivesAsTwo | src/mandate.ts:72-81 | of a mandate with an accented e the seller reads the UTF-8 bytes as characters, which is another text |
| MandateAgreement.HeaderDecodes | src/mandate.ts:72-81 | the header of an ASCII mandate decodes to the same mandate, with the same signed text |
| MandateAgreement.SellerAgrees | buyer/mandate.mjs:61-110 | a mandate the buyer accepts is accepted by the seller at time t exactly if expiry is a string, caps are finite, t is before the expiry, payer is holder and the named seller is this one |
| MandateAgreement.NumericExpiryRefused | src/mandate.ts:107-114 | a mandate with a numeric expiry in the future is valid to the buyer and malformed to the seller |
| Price.PriceReadsBack | src/negotiate.ts:34-37 | a price written with six digits is read as the amount it was written for |
| Price.WholeIsRead | src/paid-route.ts:84-91 | a price without a point is read as whole dollars, and a text without a digit as no number |
| Price.AtomicIsExact | src/paid-route.ts:84-86 | rounding changes nothing exactly if the price is a whole number of micro-USDC |
| Price.ReadersAgreeIff | src/paid-route.ts:89-91 | mandate check, negotiation and buyer read a price variable alike exactly if it is set and not empty; else only the buyer reads an amount, its default |
| Price.OneAmount | src/paid-route.ts:84-91 | with at most six fractional digits the screen's rounding loses nothing, so its integer is the amount the other readers see |
| Price.ScreenAsksListPrice | src/paid-route.ts:119-121 | the screen rejects an authorization exactly if it is below the list price |
| Price.HalfRoundsUp | src/paid-route.ts:84-86 | half a micro-USDC is screened as a whole one |
| Negotiation.NamesMatch | buyer/agent.mjs:238-241 | the buyer negotiates about each skill under the name whose price the card shows |
| Negotiation.CounterOfferFails | src/negotiate.ts:95-117 | a counter-offer at the limit, made because the card's price is above it, is never accepted |
| Negotiation.NegotiatesAtList | src/negotiate.ts:72-117 | for a skill with a list price: accepted exactly from it upwards, declined with it as the counter below, invalid below zero or for no number, and quoted without an offer |
| Negotiation.UnknownIff | src/negotiate.ts:58-70 | which resources are unknown; no resource means the readings |
| Negotiation.ListPriceIsPaid | buyer/agent.mjs:228-268 | so every offer the agent can choose is within its limit and at the list price that the screen asks for, which `SellerRun` carries to what is charged |
| Feed.SettlementStream.constructor | src/demo.ts:70-75 | a stream starts from the page's cursor, else the latest event, else now, and announces it |
| Feed.SettlementStream.PollKv | src/demo.ts:81-95 | a poll sends an event exactly if it is newer than the cursor, and moves the cursor to it |
| Feed.SettlementStream.PollFails | src/demo.ts:96-99 | a failed read is reported and moves nothing |
| Feed.SettlementStream.Close | src/demo.ts:112-120 | a planned close announces itself last, and on a cancelled stream does nothing more |
| Feed.FeedPage.OnConnected | src/demo.ts:907-916 | the first connection sets the page's cursor, later ones do not |
| Feed.FeedPage.OnSettlement | src/demo.ts:918-926 | the page shows a settlement newer than its cursor and no other |
| FeedRuns.StepKeeps | src/demo.ts:70-120 | every step keeps page and stream agreeing once all that was sent has arrived |
| FeedRuns.ShownOnce | src/demo.ts:918-926 | in every run settlements are shown in strictly increasing time, each at most once, and only recorded ones |
| FeedRuns.NothingDropped | src/demo.ts:918-922 | the page's own check never drops anything the stream sent |
| FeedRuns.FreshPollShows | src/demo.ts:87-95 | a value that a poll of an open stream reads is shown exactly once, unless the stream breaks before delivering, if and only if it is newer than the stream's cursor or was already sent or shown |
| FeedRuns.NeverReadNeverShown | src/demo.ts:88-94 | in every run, an event that no poll reads is never shown |
| FeedRuns.OverwrittenInput | src/demo.ts:88-94 | two writes before a poll: the first is recorded and never read |
| FeedRuns.CloseIsLast | src/demo.ts:112-120 | a planned close announces itself once, and nothing is sent after it |
| FeedRuns.ReconnectResumes | src/demo.ts:70-75 | when all that has arrived, the page opens its next stream from its own cursor |
| Payers.TrimDrops | src/payers.ts:37 | trimming drops the white space around a text and nothing else |
| Payers.ListedAreOurs | src/payers.ts:32-40 | exactly the addresses on the list are ours, whatever their case and the white space around them |
| Payers.CountsIff | src/payers.ts:50-54 | a receipt counts exactly with a transaction and a payer that are not empty |
| Payers.SamePayerIff | src/payers.ts:53 | two receipts are one payer's exactly if their payers are the same letters in whatever case |
| Payers.Summarise | src/payers.ts:47-78 | the loop over the receipts gives, for each payer, the summary of that payer's receipts, sorted |
| Payers.ReportIs | src/payers.ts:47-78 | the report has exactly the payers of receipts that count, and of each the number, volume and latest time of its receipts, the earliest as `FirstSeenIsEarliest` says, and whether it is ours |
| Payers.SortIsNewestFirst | src/payers.ts:77 | the result is ordered by last_seen, newest first |
| Payers.LastIsLatest | src/payers.ts:63-64 | last_seen is the latest timestamp that is not empty |
| Payers.FirstSeenIsEarliest | src/payers.ts:63-71 | first_seen is the earliest exactly if the payer's first receipt has a timestamp, or none has |
| Payers.FirstWithoutTime | src/payers.ts:63-71 | a first receipt without a timestamp leaves first_seen empty although the next receipt has one |
| Payers.Conservation | src/payers.ts:47-103 | settlement counts and volumes of all payers, and of external and own payers together, are those of the receipts that count |
| Metrics.OnDayIff | src/metrics.ts:117-119 | the day's receipts are those that settled from its first to its last millisecond |
| Metrics.LabelIs | src/metrics.ts:126-128 | a receipt is counted under its resource, or as unlabelled |
| Metrics.DailySettlements | src/metrics.ts:114-136 | the fold gives the day's count, volume, count per resource, payers and external payers |
| Metrics.ExternalsAgree | src/metrics.ts:130-135 | the payer report counts as many external payers for the day's receipts as the metrics do |
| Metrics.SameExternals | src/metrics.ts:130-135 | and they are the same addresses |
| Metrics.AccountsMakeTheDay | src/metrics.ts:126-136 | the day's volume and count are the payers' accounts plus the receipts without a payer |
| DeviceTwin.DeviceTwin.constructor | src/device-twin.ts:22-61 | waking sets an alarm only if none is pending, one interval ahead: the setting, if it is at least 1000, else a minute |
| DeviceTwin.DeviceTwin.Alarm | src/device-twin.ts:43-49 | the next alarm is set before the tick, which may fail |
| DeviceTwin.DeviceTwin.TickOnce | src/device-twin.ts:71-89 | a tick stores the next number and puts the reading in front, keeping 50 |
| DeviceTwin.DeviceTwin.GetLatestReading | src/device-twin.ts:100-109 | the latest reading, or a seed with number 0 when there is none |
| DeviceTwin.DeviceTwin.GetHistory | src/device-twin.ts:114-118 | the longest prefix of the history of at most 50 readings and at most the limit, and one reading even for a smaller limit |
| DeviceTwin.RingBuffer | src/device-twin.ts:71-109 | after any events: latest is history[0], history[i] is numbered seq − i, history is the newest 50 of everything stored, and no number repeats |
| DeviceTwin.HistoryIsPrefix | src/device-twin.ts:114-118 | such an answer consists of the newest of all readings ever stored, as many as the limit allows |
| DeviceTwin.StartsAtOne | src/device-twin.ts:71-109 | numbers start at 1 exactly if a tick comes before the first read, and else at 0 |
| DeviceTwin.AlarmAlwaysPending | src/device-twin.ts:27-49 | once an alarm is set one is pending for ever, whichever ticks fail |
| Csv.ExportSubscribers | src/subscribe.ts:120-167 | the handler answers 503, 401, 503 or the printed records of all pages, in order |
| Csv.QuotedReads | src/subscribe.ts:153 | a quoted field is read back, whatever it contains |
| Csv.RowReads | src/subscribe.ts:152-154 | so is a row of quoted fields |
| Csv.ReadsBack | src/subscribe.ts:141-160 | a reader by section 2 of RFC 4180 recovers exactly the header and, in each column of every record, what that column is for |
| Csv.TokenIs | src/subscribe.ts:130-131 | the token is the query's, else what follows "Bearer" in any case and white space, else the whole header |
| Csv.ExportReadsBack | src/subscribe.ts:120-160 | the exact condition of an export and of each error, and what is exported reads back as the stored subscriptions |
| Jsonc.StripComments | scripts/dev-local.mjs:33-62 | the nested index loops terminate and compute the token-level specification |
| Jsonc.LineGoes | scripts/dev-local.mjs:33-62 | a line comment, through its newline or the end, becomes a newline |
| Jsonc.BlockGoes | scripts/dev-local.mjs:33-62 | a block comment, through its first closer, goes |
| Jsonc.StringStays | scripts/dev-local.mjs:39-51 | a string literal stays, whatever is in it |
| Jsonc.CharacterStays | scripts/dev-local.mjs:33-62 | and so does every other character that starts neither a comment nor a string |
| Jsonc.LexIsLossless | scripts/dev-local.mjs:33-62 | strings, comments and single characters make up the whole text |
| Jsonc.StripLexes | scripts/dev-local.mjs:33-62 | the tokens of the stripped text are those of the text without its comments |
| Jsonc.StripIsIdentity | scripts/dev-local.mjs:33-62 | a text is left alone exactly if it has no comment and no escape cut off at its end |
| Jsonc.StripIsIdempotent | scripts/dev-local.mjs:33-62 | stripping twice is stripping once |
| Jsonc.LiteralsVerbatim | scripts/dev-local.mjs:39-51 | no comment is left outside strings, and string literals are copied as they are |
| Jsonc.DropIsIdentity | scripts/dev-local.mjs:63 | the comma replacement changes a text exactly if a comma stands before white space and a closing bracket |
| Jsonc.LiteralsAfterCommas | scripts/dev-local.mjs:63 | the literals of the text that is parsed are the source's literals with such commas dropped |
| Jsonc.StringsSurvive | scripts/dev-local.mjs:63 | so they survive exactly if none contains such a comma |
| Jsonc.StringLosesComma | scripts/dev-local.mjs:63 | the string ",]" is read as "]" |

## Left out

- Canonical.CanonicalIffSame: numbers are integers or non-finite; how ECMAScript prints fractions and exponents is not modelled.
- AgentRun.CapHolds: bounds what leaves the wallet up to `Excess`, which a dishonest seller (`AgentRun.UnparsedPriceBreaksCap`), or transfers executed after error answers (`HonestSeller.ErrorAnswersBreakCap`), can make as large as they like.
- Settlement.RunKeeps: a run starts with no replay key and no used authorization; keys do not expire in it, except that any read may miss any key.
- Receipts.EveryVersionGood: does not claim that every settlement gets a receipt; `LostReceipts.NothingLostIff` says when those that are written stay.
- LostReceipts.NothingLostIff: is about receipts that are written; a settlement that was reported without its transaction, or whose write never happens, gets none.
- Replay.UndisturbedRunsOnce: is about schedules the platform does not promise; `Replay.OnceIffOneCarrier` is about all of them. Keys do not expire in a run.
- RateLimiter.QuotaHolds: needs a quota of at least 1; a configured quota below 1 makes the code read the first element of an empty list.
- RateLimitGate.GateQuotas: whole-number settings, of which `RateLimitGate.ConfigIsValidIff` says which are valid; a payer name is taken as given, since it is unverified at that point.
- FeedRuns.FreshPollShows: timestamps are numbers, as ISO-8601 strings of one length are.
- MandateAgreement.SellerAgrees: is stated for mandates whose JSON text is ASCII and whose signature is a string; `MandateAgreement.ReadAsWritten` says what happens to the others. NaN and the infinities are one value.
- Price.OneAmount: numbers are exact, so binary rounding of fractions is not modelled; the x402 library's own reading of the price string is not part of this model.
- SellerRun.CapHoldsAtListPrice: assumes that the transfer is the amount the screen asks for.
- Payers.Summarise: amounts are whole micro-USDC, on which `toFixed(6)` does nothing; addresses are ASCII.
- Csv.ExportSubscribers: the store does not change while it is exported.
- Jsonc.StripComments: JSON.parse of the result is not part of this model.
- DeviceTwin.DeviceTwin.Alarm: setting the alarm itself does not fail.
- x402 packages, viem, WebCrypto, KV and the Durable Object runtime: assumed as stated above, since their code is not here.
- The order of the other gates in `createPaidRoute` (validation, mandate, screen) and the network, asset and recipient checks of `screenPayment`: one comparison each.
- The filter and slice of `/api/receipts`, the status endpoint, the legacy route, health and favicon: no property beyond reading them.
- `src/inference.ts`: a model call with two length checks and an argmax.
- The subscribe handler, visit beacon and their KV counters, which their comments call approximate.
- Pages, styles, the receipt table's own polling, connection status and backoff times: user interface.
- Scripts that spawn processes, read the environment or copy KV, and the signal handlers of the agent.
- Sensor values, jitter, logging and console output.
