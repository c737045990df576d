# Counter bridge and deployment listing, in Dafny

This project models the two pieces of decision logic in a small counter application, and proves
properties about both. The counter itself lives on a ledger.

- **The HTTP-to-ledger bridge** (`api/src/server.ts`). Each route handler (`/value`, `/increment`,
  `/increment-by`, `/decrement`, `/decrement-by`, `/health`) is a total function. Its inputs are the
  request's `amount` field and the outcomes the ledger clients report: the read, the submission and
  the receipt wait. It returns the HTTP status, the JSON envelope and the list of ledger calls it
  made, in order. The call list is what lets the model state "no submission" and "receipt only
  after submission".
- **The deployment-address listing** (`hardhat/scripts/deploy.ts`). The inputs are a directory
  listing and, per directory, what reading `deployed_addresses.json` gives (`Missing`, `ReadFail`
  or `Parsed(fields)`). The model covers the `chain-` filter, the chain-id parse, the network-name
  lookup with its `chain-<id>` fallback, the loop that appends deployments in scan order, and the
  `reduce` into the network-to-address record.

Files:

- `js.dfy` (module `Js`) holds the JavaScript runtime behaviour both rely on: `startsWith`,
  `includes`, `replace` of a string pattern, integer `toString`, and `parseInt` (white space, sign,
  `0x` hexadecimal, stopping at the first non-digit).
- `bridge.dfy` (module `Bridge`) holds the handlers as pure functions, and the lemmas about them.
- `deploy.dfy` (module `Deploy`) holds the filter and the lookup as functions. The directory loop
  and the `reduce` are methods with loops, proved against the specification functions `Collected`
  and `Record`. `ListDeployments` composes them as `main` does.

Three behaviours of the code that a reader might not expect, each modelled as written:

- **Non-integer amounts get through validation.** The guard
  `!amount || typeof amount !== "number" || amount <= 0` lets a positive fraction or `Infinity`
  through. `BigInt(amount)` then throws a RangeError inside the `try`, before anything is
  submitted, and the handler answers through its `catch` block: a 500 on `/increment-by`.
- **A reverted receipt is answered 200.** The reply has `success: true` and `status` set to
  `"reverted"` (`SuccessIffConfirmed`).
- **Raw error text reaches the client.** Every 500 carries `error.message`, or on the decrement
  routes `shortMessage`, or else the route's fallback text.

## Model

| member | source | states |
|---|---|---|
| `Js.ContainsIff` | api/src/server.ts:174-177 | the left-to-right `includes` scan succeeds exactly when the pattern occurs at some index |
| `Js.RemoveFirstLeftmost` | hardhat/scripts/deploy.ts:32 | `replace("chain-", "")` removes the leftmost occurrence and keeps the text on both sides |
| `Js.RemoveFirstAbsent` | hardhat/scripts/deploy.ts:32 | with no occurrence of the pattern, `replace` returns the string unchanged |
| `Js.Decimal` | api/src/server.ts:99 | `toString()` of a block number or counter value is a non-empty digit string, with a leading `0` only for zero |
| `Js.DecimalRoundTrip` | api/src/server.ts:72 | reading the decimal text back gives the number it was rendered from |
| `Js.DecimalInjective` | api/src/server.ts:72 | distinct values render to distinct text |
| `Js.ParseIntText` | hardhat/scripts/deploy.ts:32 | `parseInt` reads back every integer that `String` renders, including negative ones |
| `Bridge.GuardAdmitsPositiveNumbers` | api/src/server.ts:117 | the amount guard refuses exactly the non-positive-numbers: missing, falsy (0, NaN), non-number, or at most zero |
| `Bridge.CallsOrdered` | api/src/server.ts:61-248 | every handler makes at most one write, awaits a receipt only right after a write that returned a hash and only for that hash, and writes exactly on `/increment` and `/decrement`, and on the amount routes when the amount is a positive integer |
| `Bridge.AmountValidation` | api/src/server.ts:117-202 | on the amount routes the reply is 400 "Amount must be a positive number" with no ledger call, if and only if the guard refuses the amount |
| `Bridge.WriteCarriesAmount` | api/src/server.ts:124-219 | a validated integer amount is the argument of `incBy`/`decBy`, and a success envelope echoes it |
| `Bridge.NonIntegerNeverSubmitted` | api/src/server.ts:124-147 | a positive fraction or Infinity makes no ledger call and never succeeds; `/increment-by` then answers 500 with the RangeError text |
| `Bridge.SuccessIffConfirmed` | api/src/server.ts:96-220 | a write answers 200 if and only if it was submitted and its receipt arrived; the envelope then holds the submitted hash, the receipt's block number as decimal text and its status, plus the amount exactly on the amount routes |
| `Bridge.DecrementClassifies` | api/src/server.ts:169-187 | `/decrement` picks `message`, then `shortMessage`, then its default, and answers 400 with the at-zero message exactly when that text contains a marker; otherwise 500 with that text |
| `Bridge.DecrementByClassifies` | api/src/server.ts:221-241 | the corrected `/decrement-by` (the `catch` block with the amount in scope) answers 400 with a message naming the amount exactly on an underflow match; otherwise 500 with the raw text |
| `Bridge.MarkerAnywhereIsUnderflow` | api/src/server.ts:174-177 | "underflow" or "cannot be decremented" anywhere in the error text classifies it as an underflow |
| `Bridge.IncrementIgnoresShortMessage` | api/src/server.ts:74-147 | `/increment`, `/increment-by` and `/value` replies do not depend on `shortMessage`; `/increment` answers only 200 or 500, and `/increment-by` answers 400 exactly for a refused amount |
| `Bridge.IncrementFailureReply` | api/src/server.ts:102-107 | whenever the submission or the receipt wait fails, `/increment` answers 500 with the failing call's `message`, or "Failed to increment counter" when it is empty, after the write and, if a hash came back, the receipt wait |
| `Bridge.IncrementByFailureReply` | api/src/server.ts:141-146 | for a validated integer amount, whenever the submission or the receipt wait fails, `/increment-by` answers 500 with the failing call's `message` or its default, after `incBy(amount)` and, if a hash came back, the receipt wait |
| `Bridge.DecrementReadsShortMessage` | api/src/server.ts:169-187 | whenever the failing call's `message` is empty, `/decrement` classifies its `shortMessage` (or the default when that is empty too): the at-zero 400 when it names an underflow, otherwise a 500 with that text |
| `Bridge.ValueReports` | api/src/server.ts:61-80 | `/value` reads once; it answers 200 with the value as decimal text exactly when the read succeeds, and 500 with `message` or its default otherwise |
| `Bridge.HealthIndependent` | api/src/server.ts:246-248 | `/health` answers 200 `{status: "ok"}` for every request and every ledger, with no ledger call |
| `Bridge.AsWrittenAgreesElsewhere` | api/src/server.ts:192-243 | `/decrement-by` as written sends the same reply as the corrected handler, except that it throws exactly where the corrected one answers the underflow 400 |
| `Bridge.AsWrittenLosesUnderflowReply` | api/src/server.ts:228-235 | for every underflow on `/decrement-by`, the handler as written throws a ReferenceError instead of replying, while the intended reply is a 400 |
| `Bridge.AsWrittenCounterexample` | api/src/server.ts:232-235 | for `decBy(1)` rejected with "underflow", the code as written throws, and the intended reply is 400 "Cannot decrement by 1: counter would go below zero" |
| `Deploy.ChainDirs` | hardhat/scripts/deploy.ts:25-27 | the scanned names are no more than the entries, and every one starts with `chain-` |
| `Deploy.ChainDirsMembers` | hardhat/scripts/deploy.ts:25-27 | a name is scanned exactly when some entry with that name is a directory starting with `chain-` |
| `Deploy.ChainDirsAppend` | hardhat/scripts/deploy.ts:25-27 | the filter keeps listing order: the scan of a concatenation is the concatenation of the scans |
| `Deploy.FallbackNamesMarked` | hardhat/scripts/deploy.ts:18-33 | a network name starts with `chain-` exactly when the chain id is not 11155111, 31337 or 1, so table names and fallback names never collide |
| `Deploy.ChainSuffix` | hardhat/scripts/deploy.ts:32 | for a scanned name, `replace` strips exactly the leading `chain-` |
| `Deploy.NetworkOfChainDir` | hardhat/scripts/deploy.ts:32-33 | the directory for chain `i` parses back to `i`; its network is the table's name when the table lists `i`, and otherwise the directory's own name |
| `Deploy.CollectDeployments` | hardhat/scripts/deploy.ts:29-48 | the loop over scanned directories produces exactly `Collected`, appending one deployment per directory that has an address |
| `Deploy.CollectedAppend` | hardhat/scripts/deploy.ts:31-48 | scanning runs of directories one after another only appends, so deployments keep scan order |
| `Deploy.SkipsOnlyThatDirectory` | hardhat/scripts/deploy.ts:36-47 | a directory whose file is missing, unreadable or lacks an address is skipped, and the directories around it are still collected |
| `Deploy.CollectedMembers` | hardhat/scripts/deploy.ts:37-43 | a deployment is collected exactly when some scanned directory's file parses with a non-empty `CounterModule#Counter` |
| `Deploy.CollectedLength` | hardhat/scripts/deploy.ts:29-48 | at most one deployment is recorded per scanned directory |
| `Deploy.Aggregate` | hardhat/scripts/deploy.ts:67-70 | the `reduce` produces exactly `Record` of the deployments |
| `Deploy.RecordKeys` | hardhat/scripts/deploy.ts:66-70 | the record's keys are exactly the network names of the deployments |
| `Deploy.RecordLastWins` | hardhat/scripts/deploy.ts:67-70 | a network's address is that of its last deployment, so later entries overwrite earlier ones |
| `Deploy.ListDeployments` | hardhat/scripts/deploy.ts:10-72 | a missing deployments directory exits 1 before any scan; no deployment found exits 1 with nothing written; otherwise the written record is `Record` of the deployments collected in scan order |

## Findings

| source | as written | input that shows it | evidently intended | confidence | as-written member | corrected member |
|---|---|---|---|---|---|---|
| api/src/server.ts:195-234 | `amount` is declared with `const` inside the `try` block, but the `catch` block's underflow message uses `${amount}`. The name is out of scope there: a type-checking build rejects it, and in a transpile-only build the handler throws a ReferenceError from its `catch` block and sends no reply itself. Under Express 5 the default error handler answers instead: it keeps the 400 that `res.status(400)` set before the throw, with an HTML error page in place of the JSON body. Under Express 4 the rejection is unhandled, and on Node 15 or later the process exits | `POST /decrement-by {"amount": 1}` on a counter at zero, with the write rejected by an error whose message contains "underflow" | 400 `{success: false, error: "Cannot decrement by 1: counter would go below zero"}` | not executed; high (block scoping of `const`) | `Bridge.AsWrittenLosesUnderflowReply` | `Bridge.DecrementByClassifies` |

The as-written handler is `Bridge.DecrementByAsWritten`. `Bridge.DecrementByHandler` is the
corrected one, used by `Bridge.Handle`.

## Left out

- Express, CORS and JSON body parsing, `app.listen`, and all `console` output, in both files. These are I/O, not decisions.
- Startup configuration (`api/src/server.ts:9-58`): the dotenv and environment reads, the `process.exit(1)` checks, account derivation and client construction. This is process configuration, read once before any request.
- viem's `readContract`, `writeContract` and `waitForTransactionReceipt` are not modelled. They appear only as outcome values (`Ledger`). The receipt outcome is given independently of the hash; transport timeouts are inside the `ReceiptFailed` outcome.
- Concurrency is not modelled. This covers the interleaving of requests and the unserialized nonce race on the single signing account, and the model treats each request in isolation.
- IEEE-754 semantics of `amount` are not modelled; it is an abstract tag (`Bridge.Amount`). Precision lost while parsing a very large JSON literal happens before the handler runs. `Integer(v)` is the value of the double that parsing produced.
- `Bridge.RangeMessage` uses V8's wording for the RangeError that `BigInt` throws. Other engines word it differently.
- Error objects are only modelled as having string `message` and `shortMessage` properties (`""` when absent). A thrown non-object, or a non-string `message`, is not modelled.
- The request body is assumed to be an object. When a request carries no JSON body and `req.body` is left undefined (as `express.json()` in Express 5 does), `const { amount } = req.body` (`api/src/server.ts:115`, `api/src/server.ts:195`) throws a TypeError inside the `try`, so `/increment-by` and `/decrement-by` answer 500 with that TypeError's text; the model has no such input and answers the 400 it gives for `Absent`.
- Strings are sequences of Unicode scalar values (`char`), not of UTF-16 code units as in JavaScript, so a lone surrogate cannot be represented. The markers and the `chain-` prefix are ASCII, so no modelled result depends on this.
- `Bridge.NonIntegerNeverSubmitted`: for `/decrement-by` it states only that no ledger call is made and no success is reported. Whether the RangeError text trips the underflow match is not proved. With V8's wording it contains neither marker, so the reply is in fact a 500.
- `parseInt` is modelled on exact integers. The rounding of digit strings beyond 2^53 and the exponent notation `${chainId}` uses from 1e21 up are not modelled.
- `Bridge.AmountText`: renders `Integer(v)` in full digits with `IntText`. JavaScript renders a Number from 1e21 up in exponent form (`1e+21`), so for such amounts the `${amount}` in the `/decrement-by` underflow message (`api/src/server.ts:234`) differs from the model's text.
- Filesystem and JSON I/O in `deploy.ts` are inputs: `existsSync` of the deployments directory, the listing, and what each file read gives. Path resolution and the `JSON.stringify` layout of the written file are not modelled. `DirResult.Parsed` holds only string-valued properties, so a non-string truthy `CounterModule#Counter` value is not modelled.
- The `main().catch` path (`hardhat/scripts/deploy.ts:77-82`) is not modelled. It is taken when something outside the loop's `try` throws: `readdirSync` of the deployments directory (`hardhat/scripts/deploy.ts:25`) or `writeFileSync` of the record (`hardhat/scripts/deploy.ts:72`) failing. `ListDeployments` assumes both succeed.
- The on-chain Counter contract and `hardhat/test/Counter.ts` are not part of this model. The contract's Solidity source is not among the files, so the counter's arithmetic, its events, and the conservation, block-number and idempotent-read properties that depend on the ledger are not modelled.
