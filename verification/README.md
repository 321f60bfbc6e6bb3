# Verification models of the commerce provider and its neighbours

A Dafny 4.11 project kept beside the repository. It models six parts of the
application and proves what they promise over every input, every interleaving and every
run. `dafny verify dfyconfig.toml` verifies the whole project.

## What is modelled

**The commerce provider's transactional core** (`app/commerce_provider/core.py`,
`storage.py`, `faults.py`). `CommerceModel` is the database as a value, with the work of the
five mutations and of payment settlement as functions from one committed database to the next.
`CommerceProtocol` is `_mutate` as a state machine: any number of callers move through
receipt lookup, pre-fault, write transaction, cache invalidation and post-fault in any
interleaving, with planned faults, a busy database, lost callers, restarts, searches that
read and store the stock cache, and a clock that never goes back. `CommerceStock`,
`CommerceInvariant`, `CommerceOrders` and `CommerceRuns` build the invariant and show that
every step keeps it; `CommerceTheorems` and `CommerceHistory` state the results for whole runs,
and `CommerceFaults` whom a planned fault hits.
`CommerceCache` says when the searches' stock cache goes stale; `CommerceExample` runs into it,
and `CommercePaidAgain` into a paid payment that stops being paid.
`CommerceStore` is the same database updated in place, table by table, with rollback;
`CommerceCore` is `_mutate` and the fault controller on objects, tied to the state machine.

**The virtual catalog** (`catalog.py`). `Catalog` is the mixed-radix address space, the
described item and the growing index tables; `VirtualCatalogs` the object that
`register_dynamic` updates. `TokenPlan` resolves query words to pairs, series and text.
`Search` and `SearchLoops` are the nested bounded loops with the residue merge;
`SearchExact` shows on which catalogs they compute a declarative filter over all indices;
`Paging`, `PageToken` and `PageRequests` are pages, token texts and the checks between them;
`Sku` and `Digits` the SKU text; `Division` the quotients behind the address space.

**Minting** (`minting.py`, `core.py`). `Minting` is proposal validation, `MintLog` the durable
log with replay after a restart, `MintStore` the object form.

`Storefront` joins the parts: what any run of the mint log guarantees to a planned, paged
query, and to a quote made before the catalog grew; `CatalogExamples` holds two concrete
catalogs on which a search and its description part.

**Rate limiting** (`app/middleware/`). `SlidingWindow` is the Lua script over a sorted set with
key expiry, `WindowLimits` its calls as a client makes them, with members repeated or out of
order, `RealWindows` its bound on real intervals, `MemberText` the members as the text they are.
`TokenBuckets` is the bucket over exact reals, `Failover` the limiter that switches between them
request by request.

**Handoff tickets** (`app/repositories/ticket_repository.py`). `Tickets` is the create-or-reuse,
claim and resolve protocol with other actors acting between statements; `TicketQueue` the
serving order.

**Server-sent events** (`app/api/v1/chat.py`). `Sse` is the printer against a decoder for
section 9.2.6 of the WHATWG HTML Living Standard. `IsoTime` is `to_iso`/`from_iso` over the
whole calendar.

## Assumptions

- The provider's clock does not go back, and a uuid4 never repeats an id in use (`Fresh`).
- JSON columns hold the values they were written from, and the request digest is injective,
  so a receipt keeps the operation itself; the search digest is injective and hexadecimal.
- Text functions of the language are parameters: upper-casing, white space and Unicode digits
  are only assumed to treat the ASCII letters, digits and dash of a SKU as Python does
  (`Sku.Faithful`); lower-casing and name normalization are arbitrary functions.
- Price formulas and stable hashes are arbitrary functions of what the code feeds them.
- Time in the rate limiters is exact; the sliding window works on the integer milliseconds the
  script is given. Its members are pairs of instant and address, which loses nothing: on any
  text that tells a client's arrivals apart the script answers the same (`TextIsEnough`), and
  for any arrivals there is such a text (`SomeTextTells`).

## Formats and constants

Where only a value can fix a value, vectors and boundary facts do: `Rfc4648Vectors`, `UrlSymbols`
and `PayloadVector` for page tokens, `IsoVectors`, `LeapDays` and `Quarters` for times,
`StockAndCaps` and `PriceOfModel` for the catalog's numbers, `PageSizeNearest`, `AcceptedLimits`
and `DomainsExactly` for limits, `PlannableKinds` and `PlannableModes` for faults, `NoWindowRate`
for a fallback without a window, `SurroundingSteps` and
`SettlesExactly` for clock, restart, cleared faults and settlement.

## What the code does beside its own documentation

- The comment at `app/commerce_provider/core.py:200-201` says displayed stock must not stay
  stale. It can: a search that read the rows before a commit may store them after the
  invalidation. `StaleExactly` says for whole runs exactly when the cache is stale with
  nothing due to drop it, `StaleReachable` reaches such a state from an empty database, and
  `NoOversell` shows that a stale cache cannot oversell.
- A paid payment can stop being paid: over any run exactly when its owner pays it again with
  a new key under a processing fault (`UnpaidExactly`), which a run from the empty database
  reaches (`UnpaidReachable`); with faults disabled paid is terminal.
- A proposal is checked with untrimmed attribute names (`minting.py:175`) but stored with
  trimmed ones. A clash that appears only after trimming is accepted and committed, then
  refused by the catalog, and every later restart fails (`AcceptedShape`, `ClashExample`,
  `ClashStopsRestart`). Names sent trimmed never clash (`TrimmedNamesSuffice`).
- A brand word picks pair `start + brand` while the item there carries brand `pair % 32`. For
  a minted plain category the two agree exactly when a multiple of 32 styled categories was
  minted before it (`BrandTokenExact`); after one styled category the first brand's word
  picks items of the second (`BrandWordPicksAnother`).
- A page token the search itself issued can be refused when followed: under its own context
  exactly when the offset plus two page sizes exceeds the deepest window (`WalkEnds`), and
  under any other context always (`IssuedToken`).
- Search judges an item by the values its loops test, which need not be those its description
  shows. It is exact for every query that words and filters give if and only if each item
  shows under every key the value the loops test (`HonestExactly` per index, `SearchExactly`
  per catalog). Attributes or a variant key named 品牌 or 系列, repeated attribute names and
  empty style matrices can break this. Proposal validation accepts an attribute named 品牌, and
  the minted item is then misjudged under the empty text with one filter
  (`AcceptedYetMisjudged`).
- The sliding-window bound is one on milliseconds and distinct members. On a real interval
  `k` limits hold if and only if the interval touches no more milliseconds than `k` windows
  have (`OffGridExactly`); an interval shorter than one window may touch more
  (`OffGridExample`), so a real window has the bound of twice the limit (`RealWindowBound`).
  A member repeats when two requests print the same instant: `n` such requests after `k`
  admitted ones exceed the limit exactly if `k + 1 < limit < k + n` (`RepeatsExactly`), so
  with repeats allowed the bound holds if and only if the limit is at most one
  (`RepeatsAllowedExactly`). The same condition is exact when the callers' clocks may step
  back or differ (`AnyOrderExactly`): one clock ahead empties the log for all.
- `time.time()` can step back. The token bucket's admission bound stands whatever the clock
  does; tokens turn negative exactly if some step back is worth more than the tokens left
  (`DebtExactly`, `DebtExample`), so never while it does not step back (`NoDebt`).
- A limiter that switches between Redis and its fallback lets through fewer than three times
  the limit in an interval that touches no more milliseconds than its window, and one less
  than that is reached (`FailoverBound`, `FailoverBoundIsSharp`); in any real window it lets
  through fewer than four times the limit (`FailoverRealWindow`).
- The generator gives two texts another meaning: the empty chunk is the heartbeat
  (`app/services/chat/chat_service.py:56`) and becomes a comment, and a chunk that reads
  `[[STREAM_ERROR]]` (`chat_service.py:60`) becomes the error message. A reader gets every
  text exactly unless one of them is one of these two (`TextsDeliveredExactly`). One frame of
  an empty chunk does round-trip.

## Model

| member | source | states |
|---|---|---|
| CommerceTheorems.NoOversell | app/commerce_provider/core.py:537-848 | In every reachable state, whatever a search has cached, no SKU has sold more than its base availability, and its stock rows sum to exactly minus the quantities in the quotes its orders consumed, each order counted once |
| CommerceTheorems.ExactlyOnce | app/commerce_provider/core.py:150-220 | Each request key commits at most once and has a receipt exactly if it committed; replaying the commits serially from the empty database gives the present one; every successful answer is the stored result; no call ever needs the integrity-error recovery |
| CommerceTheorems.AnswersAgree | app/commerce_provider/core.py:124-132 | Two successful answers under one request key, however obtained, are to the same owner and operation and identical, over every run |
| CommerceTheorems.RefusalCommitsNothing | app/commerce_provider/core.py:160-220 | Over every run, a call answered with a definite error (any but unknown) has no event in the log of commits and is no longer under way, so it never will |
| CommerceTheorems.ForeignNeverSucceeds | app/commerce_provider/core.py:124-132 | Once a key is stored, no run ever answers a call under that key by another owner or for another operation with success |
| CommerceTheorems.ForeignAfterAnyRun | app/commerce_provider/core.py:124-132 | Once a key is stored, then after any further steps by anyone a call reusing it with another owner or operation is answered with a conflict by its first read, changing nothing |
| CommerceTheorems.ReplayAfterAnyRun | app/commerce_provider/core.py:160-170 | Once a key is stored, then after any further steps by anyone a repeated call is answered from the stored result by its first read, changing nothing |
| CommerceTheorems.Reachable | app/commerce_provider/core.py:150-220 | The whole system invariant holds after every sequence of steps |
| CommerceTheorems.RunGrows | app/commerce_provider/core.py:597-1012 | Over any run history is append-only: receipts, order terms and what quotes offered never change, ordered carts freeze, failed stays failed, and without faults paid stays paid |
| CommerceTheorems.Coherence | app/commerce_provider/core.py:702-848 | A quote of its unordered cart's current version has the cart's lines; each quote, consumed exactly if ordered, and each cart yields at most one order; an ordered cart keeps its quote's lines; an order costs its quote's sum; one live offer per owner, cart and version |
| CommerceTheorems.OrderedCartFrozen | app/commerce_provider/core.py:629-643 | Whatever runs after a cart is ordered, its row and lines stay as they are |
| CommerceTheorems.PaymentLockstep | app/commerce_provider/core.py:890-1012 | In every reachable state a payment agrees with its order on owner, total and status, an order has at most one payment, and one without a payment awaits payment |
| CommerceTheorems.TerminalPayments | app/commerce_provider/core.py:937-1012 | Over any run failed is terminal, and paid is terminal with faults disabled |
| CommerceTheorems.PaymentTransitions | app/commerce_provider/core.py:937-1012 | No step moves a payment's status except paying that payment from awaiting or paid, and settling it from processing into paid or failed |
| CommerceTheorems.UnpaidExactly | app/commerce_provider/core.py:937-962 | Over any run a paid payment is ever not paid if and only if, while it was paid, its owner paid it again with a new key under a processing fault |
| CommercePaidAgain.UnpaidReachable | app/commerce_provider/core.py:937-962 | With one SKU on sale and faults enabled, some run from the empty database pays a payment that is later not paid |
| CommerceCache.CacheFreshExactly | app/commerce_provider/core.py:198-237 | A fresh stock cache stays fresh through a step exactly unless a search stores rows read before a commit whose invalidation has passed, or the last caller owing the invalidation dies |
| CommerceCache.StaleRace | app/commerce_provider/core.py:198-237 | Read, commit, invalidate, store leaves a stale cache that nothing is due to drop |
| CommerceCache.CacheNeverUnderstates | app/commerce_provider/core.py:223-237 | However stale, the cache never shows less stock than there is |
| CommerceCache.CachedExactly | app/commerce_provider/core.py:223-237 | Over any run something is cached if and only if a search stored rows it had read and nothing dropped them since, and then it is the table of the moment of the read |
| CommerceCache.StaleExactly | app/commerce_provider/core.py:198-237 | Over any run the cache is stale with nothing due to drop it if and only if a stored read was followed by a stock-taking write, nothing dropped the cache since the store, and every committed caller has invalidated or died |
| CommerceExample.StaleReachable | app/commerce_provider/core.py:198-237 | With one SKU on sale and no fault, some run from the empty database ends in such a state |
| CommerceHistory.ReceiptsAndRows | app/commerce_provider/core.py:176-195 | In every reachable state each stored answer is true of the rows it names, no two receipts claim the same cart version, order or payment, and every cart version, quote, order and payment has the receipt of the request that wrote it |
| CommerceHistory.AnswerStaysTrue | app/commerce_provider/core.py:176-195 | No later write makes a stored answer false |
| CommerceHistory.WorkAnswers | app/commerce_provider/core.py:614-963 | The answer a mutation returns describes what it wrote: the next cart version with one line per selection, the quote's stored terms, the order for that quote, the payment for that order |
| CommerceHistory.AnswersStatus | app/commerce_provider/core.py:785-963 | The status an order or payment answer gives is that of the row as it was just written |
| CommerceHistory.SettlementAnswers | app/commerce_provider/core.py:984-1012 | A settlement leaves the named payment paid or failed as it was told to, and its answer is that payment's row |
| CommerceHistory.AmountsAreUnits | app/commerce_provider/core.py:564-848 | In every reachable state each cart, quote, order, payment and stored answer is for the price of each single unit summed over the units of its lines |
| CommerceHistory.NoLostUpdate | app/commerce_provider/core.py:629-643 | Two different requests never both update one cart from the same version |
| CommerceHistory.CartShowsLastUpdate | app/commerce_provider/core.py:614-667 | An unordered cart's version, lines and subtotal are exactly what one request of its owner was answered |
| CommerceHistory.OneRequestPerOrder | app/commerce_provider/core.py:785-935 | Each order stems from exactly one request, for its quote, and each payment from exactly one, for its order |
| CommerceHistory.CheckoutOffers | app/commerce_provider/core.py:702-775 | A checkout answers with an open quote of the owner for the asked version of an unordered cart: one it already had and unexpired, writing nothing, or a new one for the full lifetime |
| CommerceHistory.CheckoutAgain | app/commerce_provider/core.py:719-746 | Whatever was committed in between, checking out a version again succeeds exactly if the cart still has it and its lines are still offered; until the quote expires it then gives the same answer and writes nothing |
| CommerceHistory.CheckoutSucceedsExactly | app/commerce_provider/core.py:702-775 | A checkout goes through exactly if the cart is the owner's, unordered, at the asked version, not empty and without a repeated SKU, and every line is still offered at its price |
| CommerceHistory.UpdateSucceedsExactly | app/commerce_provider/core.py:597-667 | A cart update goes through exactly if every selection is sellable and the cart is new with no version expected, or the owner's, unordered and at exactly the expected version |
| CommerceHistory.PaymentsSucceedExactly | app/commerce_provider/core.py:895-1012 | In a coherent database a payment is made exactly for the owner's order that has none, paid exactly if neither processing nor failed, settled exactly if processing |
| CommerceHistory.RefusalsExplained | app/commerce_provider/core.py:537-963 | In a coherent database a mutation refuses with not-found only if it names nothing of the caller's or its first unsellable line is no SKU, and with a rejection otherwise; what is not the caller's is not found |
| CommerceHistory.OrderSucceedsExactly | app/commerce_provider/core.py:790-848 | In a coherent database an order goes through exactly if the quote is the owner's, open and unexpired, its cart unchanged and unordered, and every line still in stock at its quoted price |
| CommerceHistory.CapsAndLifetimes | app/commerce_provider/core.py:537-754 | In every reachable state all cart and quote lines respect their SKU's purchase cap and no quote lives longer than the configured lifetime from now |
| CommerceRuns.StepKeeps | app/commerce_provider/core.py:150-220 | Every protocol step keeps the system invariant and only grows the database |
| CommerceRuns.TransactionKeeps | app/commerce_provider/core.py:176-195 | A transaction never fails on a key, commits at most the one receipt of its own free key, and otherwise leaves the database alone |
| CommerceRuns.WriteKeeps | app/commerce_provider/core.py:197-216 | A write by any caller keeps invariant, serial replay, log and every promised answer |
| CommerceOrders.WorkKeeps | app/commerce_provider/core.py:597-963 | Every mutation that commits keeps stock conservation, row keys, links, line contents, offers, payments, caps and lifetimes |
| CommerceOrders.WorkNeverBreaksAKey | app/commerce_provider/storage.py:20-128 | No INSERT of any mutation meets a primary key already present |
| CommerceOrders.WorkGrows | app/commerce_provider/core.py:597-963 | Each mutation only adds rows and allowed changes, touches no receipt, and un-pays only under a processing fault |
| CommerceOrders.StockRowsFit | app/commerce_provider/storage.py:81-88 | A new order's stock rows never meet the (sku, order) key |
| CommerceOrders.PlaceOrderSums | app/commerce_provider/core.py:838-842 | An order adds to each SKU's sold units exactly what its rows take from the SKU's sum |
| CommerceStock.ValidationExactly | app/commerce_provider/core.py:537-567 | Validation succeeds exactly if every selection parses, exists, is within cap, in stock under the caller's spelling and not repeated, and yields one line each with canonical name, asked quantity and present price |
| CommerceStock.RefusedForFirst | app/commerce_provider/core.py:537-567 | Validation refuses for the first selection that cannot be sold: not found if its spelling names no SKU, rejected otherwise |
| CommerceStock.SubtotalIsTotal | app/commerce_provider/core.py:564-567 | A subtotal charges every unit of every line its price and nothing else, the units listed one by one |
| CommerceStock.OneMoreUnit | app/commerce_provider/core.py:564-567 | One more unit of a line raises the subtotal by exactly that line's price |
| CommerceStock.NoUnitsCostNothing | app/commerce_provider/core.py:564-567 | Lines of no units cost nothing |
| CommerceStock.QuantityIsUnits | app/commerce_provider/core.py:838-842 | The quantity of a SKU in an order's lines is how often it occurs among their single units |
| CommerceStock.Revalidated | app/commerce_provider/core.py:537-567 | Re-validating canonical lines returns them unchanged, distinct and in stock |
| CommerceProtocol.ConsumeTakesOldest | app/commerce_provider/faults.py:100-130 | Consuming a fault takes out the oldest rule that applies and only it, or none applies and none is touched |
| CommerceFaults.ConsumedIsMeant | app/commerce_provider/faults.py:100-130 | A fault is taken if and only if one of a wanted mode is queued for the operation's own kind with no target or the cart, quote, order or payment it names; and it is the first such, the others staying |
| CommerceFaults.OthersUnharmed | app/commerce_provider/faults.py:100-130 | Over any run whose calls a rule is not meant for, planning it however often changes no answer, row, commit, call or other rule |
| CommerceFaults.PreFaultExactly | app/commerce_provider/core.py:171-190 | A call is rejected before its write, with nothing written, exactly if faults are on, the look does not fail and the first rule meant for it rejects; it writes as processing exactly if that rule is for processing |
| CommerceFaults.PostFaultExactly | app/commerce_provider/core.py:217-220 | After its commit a caller is told unknown exactly if a rule for that is meant for it, else the committed answer; the commit stands |
| CommerceFaults.BusyIsUnknown | app/commerce_provider/core.py:211-214 | A busy database answers unknown and writes nothing |
| CommerceFaults.RefusedAtOnceExactly | app/commerce_provider/core.py:597-613 | A new call is refused at once exactly without an owner or with a cart of more than fifty lines |
| CommerceStore.ProviderDatabase.RunWrite | app/commerce_provider/storage.py:178-191 | All of a transaction's work and its receipt take effect, or after any error none of it |
| CommerceStore.ProviderDatabase.ValidateLines | app/commerce_provider/core.py:537-567 | The loop over selections with its seen set and stock lookups computes the validation function, first error included |
| CommerceStore.ProviderDatabase.WriteCart | app/commerce_provider/core.py:614-667 | The in-place cart update with row counts, line deletion and re-insertion leaves the tables and answer of its specification |
| CommerceStore.ProviderDatabase.WriteQuote | app/commerce_provider/core.py:702-775 | The in-place checkout finds or inserts the quote of its specification |
| CommerceStore.ProviderDatabase.WriteOrder | app/commerce_provider/core.py:790-848 | The in-place order with its guarded updates and row-by-row stock insert leaves the tables and answer of its specification |
| CommerceStore.ProviderDatabase.InsertStockRows | app/commerce_provider/core.py:838-842 | The insert succeeds exactly if no key is met, and then appends one row per line |
| CommerceStore.ProviderDatabase.WritePayment | app/commerce_provider/core.py:895-930 | The in-place payment insert, refused for a foreign, unpayable or already paid-for order |
| CommerceStore.ProviderDatabase.Pay | app/commerce_provider/core.py:942-962 | Both status updates of a payment and its order, or the refusal |
| CommerceStore.ProviderDatabase.Settle | app/commerce_provider/core.py:984-1012 | Settlement updates payment and order together, only from processing, and changes nothing otherwise |
| CommerceStore.ProviderDatabase.FindOpenQuote | app/commerce_provider/core.py:720-726 | The first open, unexpired quote for owner, cart and version in row order |
| CommerceCore.ProviderCore.Mutate | app/commerce_provider/core.py:150-220 | The sequential call on the database, fault and cache objects, its integrity branch re-reading the receipt included, ends in the state and answer of the protocol's steps for a call that runs alone |
| CommerceCore.AloneIsMutated | app/commerce_provider/core.py:150-220 | The seven protocol steps of an undisturbed call have the effect and answer of the call in one piece |
| CommerceCore.AloneIsARun | app/commerce_provider/core.py:150-220 | An undisturbed call is one of the runs the theorems speak of |
| CommerceCore.FaultController.Take | app/commerce_provider/faults.py:100-130 | Takes the oldest matching rule in place; disabled or failing lookups take nothing |
| CommerceCore.FaultController.Plan | app/commerce_provider/faults.py:51-69 | Refuses when disabled or for an unknown kind or mode; otherwise queues the rule the given number of times at the end, none for a count below one |
| CommerceCore.ProviderCore.ReadStockRows | app/commerce_provider/core.py:223-231 | The read half of the lookup: rows only when nothing is cached, as the protocol's read step |
| CommerceCore.ProviderCore.KeepStockRows | app/commerce_provider/core.py:232-234 | The store half, after any await: what was read is cached and shown whatever was committed meanwhile, as the protocol's store step |
| Sku.ParseOfSkuId | app/commerce_provider/catalog.py:2347-2355 | Parsing a printed SKU gives the index back exactly for indices in range below 10^8 |
| Sku.SkuIdOfParse | app/commerce_provider/catalog.py:2350-2355 | Any spelling that parses has a canonical text that parses to the same index |
| Sku.SkuIdInjective | app/commerce_provider/catalog.py:2347-2348 | Different indices print differently |
| Sku.ParseAsciiExactly | app/commerce_provider/catalog.py:2350-2355 | Where only ASCII digits read, a text parses to n exactly if, stripped and in upper case, it is the canonical text of n and n is in the catalog |
| Sku.ParseIgnoresSpace | app/commerce_provider/catalog.py:2350-2355 | White space around a spelling never matters |
| Sku.ParseIgnoresCase | app/commerce_provider/catalog.py:2350-2355 | Spellings that agree in upper case parse alike |
| Catalog.DecomposeOfCompose | app/commerce_provider/catalog.py:2357-2362 | Composing then decomposing gives the coordinates back |
| Catalog.ComposeOfDecompose | app/commerce_provider/catalog.py:2357-2362 | Decomposing then composing gives the index back, coordinates are in bounds, and the pair is in range exactly when the index is |
| Catalog.StaticPartition | app/commerce_provider/catalog.py:2313-2339 | The static tables partition the pair range into blocks of 32 |
| Catalog.StaticSize | app/commerce_provider/catalog.py:2313-2326 | The static grid has as many models a pair as keep it within the intended size, and at least one |
| Catalog.Growth | app/commerce_provider/catalog.py:2395-2439 | Any sequence of accepted and refused registrations keeps one contiguous disjoint partition, extends all tables, and adds one pair per styled and 32 per plain category |
| Catalog.GrowthKeepsItems | app/commerce_provider/catalog.py:2395-2439 | Every earlier index keeps its decomposition, category, name, attributes and price |
| Catalog.GrowthUnambiguous | app/commerce_provider/catalog.py:2395-2439 | However the catalog grows, ids and normalized names stay distinct and every new category has four variant values, no attribute named like its axis and styles that fit a pair |
| Catalog.VocabularyCycles | app/commerce_provider/catalog.py:2500-2502 | The first attribute walks through its values in order, model by model, and starts again; each further one is three models ahead of the one before |
| Catalog.NameReadsBack | app/commerce_provider/catalog.py:2475-2493 | A name shows brand and series first and the category last; in plain categories the numeral between reads back to the model |
| Catalog.BrandTokenExact | app/commerce_provider/catalog.py:2579-2588 | For a minted plain category the planned pair carries the named brand exactly when a multiple of 32 styled categories came before |
| CatalogExamples.BrandWordPicksAnother | app/commerce_provider/catalog.py:2579-2588 | After one styled category is minted, the first brand's word picks in the next plain one a pair whose items carry the second brand |
| VirtualCatalogs.VirtualCatalog.RegisterDynamic | app/commerce_provider/catalog.py:2395-2439 | Registration accepts exactly new ids and names of fitting shape and appends one block in place; a refusal changes no field |
| VirtualCatalogs.VirtualCatalog.constructor | app/commerce_provider/catalog.py:2313-2339 | A new catalog holds the static partition |
| VirtualCatalogs.VirtualCatalog.Create | app/commerce_provider/catalog.py:2288-2339 | Construction succeeds exactly for a non-empty taxonomy whose variant axes are named, have a model's number of values and clash with no attribute, and then holds the static partition |
| TokenPlan.PlanTokens | app/commerce_provider/catalog.py:2569-2613 | The plan's pairs, in increasing order, are exactly those named by every word that names any pair; words naming no pair restrict the series; words naming neither stay text in order |
| TokenPlan.MatchPairs | app/commerce_provider/catalog.py:2573-2597 | One word's pairs are those of categories it names, of brand places in plain categories, and of categories with a style it names |
| TokenPlan.NamesPairExactly | app/commerce_provider/catalog.py:2556-2597 | A word names a pair exactly if it equals, or with two letters contains or is part of, the category's name or a further name, a plain category's brand or slug at the pair's place, or a style's brand or series |
| TokenPlan.NamesSeriesExactly | app/commerce_provider/catalog.py:2601-2613 | A word names a series exactly if it says the series' word in that sense |
| TokenPlan.GrowthGridded | app/commerce_provider/catalog.py:2425-2431 | However the catalog grows, plain categories own one pair per brand, so brand places stay inside their block |
| TokenPlan.PlannedIsReady | app/commerce_provider/catalog.py:2665-2697 | A planned query meets everything the search relies on |
| SearchLoops.SearchWindow | app/commerce_provider/catalog.py:2696-2798 | The nested loops with skips, scan budget and early exits return the first `needed` of one page-independent result |
| SearchLoops.MergeResidues | app/commerce_provider/catalog.py:2746-2750 | The merge of residue ranges lists every model of a wanted residue once, in order |
| SearchLoops.PlanModels | app/commerce_provider/catalog.py:2698-2757 | The models scanned are those that pass brand, series and style tests |
| SearchLoops.PlanChecks | app/commerce_provider/catalog.py:2707-2727 | The check list exists exactly if every ordinary filter key is an attribute, and passes exactly the models whose vocabulary values are allowed |
| SearchExact.HitIsWanted | app/commerce_provider/catalog.py:2475-2508 | Where an item of the query's pairs shows what the loops test, their test of its index is the filter read off the described item |
| SearchExact.HonestExactly | app/commerce_provider/catalog.py:2475-2508 | Per index: no query that words and filters give is judged otherwise than its description if and only if the item shows, under brand, series, variant and first-ordinal attribute keys, the value the loops test |
| SearchExact.SearchExactly | app/commerce_provider/catalog.py:2652-2798 | Per catalog: the stream of every query that words and filters give is the declarative filter if and only if every item shows what the loops test |
| SearchExact.MatchesExactly | app/commerce_provider/catalog.py:2652-2798 | The declarative result is strictly increasing and holds exactly the indices whose item satisfies the query |
| SearchExact.StreamIsMatches | app/commerce_provider/catalog.py:2696-2798 | Unbounded, the loops yield the declarative result wherever the items of the query's pairs show what the loops test |
| SearchExact.WindowExact | app/commerce_provider/catalog.py:2685-2798 | Under the same condition a search's matches are an initial segment of all matching indices, and the first `needed` of them unless the scan budget ran out |
| SearchExact.FoundIsHit | app/commerce_provider/catalog.py:2696-2798 | Whatever a search finds has passed the loops' own test of its index |
| SearchExact.PriceBandExactly | app/commerce_provider/catalog.py:2769-2773 | An index passes the loops' test if and only if it would at any price and its item's price lies within the bounds that are set |
| SearchExact.FoundInBand | app/commerce_provider/catalog.py:2769-2773 | Whatever a search finds lies in the price band asked for |
| Paging.SearchPage | app/commerce_provider/catalog.py:2678-2814 | A relevance page and the offset after it are those of the page-independent result |
| PageRequests.Request | app/commerce_provider/catalog.py:2652-2819 | A relevance search with its token text, digest comparison, depth check and clamped page size answers with the page and issued token, or the refusal, of its specification |
| PageRequests.IssuedToken | app/commerce_provider/catalog.py:2678-2684 | A token issued under one context starts there where it says unless that leaves the deepest window, and is refused under every other query, filter, sort or page size |
| PageRequests.WalkListsMatches | app/commerce_provider/catalog.py:2678-2814 | Presenting token text after token text lists the first of all items the query describes, where items show what the loops test, exactly the first ones unless the scan budget ran out |
| Paging.PagesTile | app/commerce_provider/catalog.py:2678-2685 | Following accepted tokens, pages tile one fixed sequence with no gap and no repeat although the window changes |
| Paging.PagesListMatches | app/commerce_provider/catalog.py:2678-2814 | The pages of a walk list a prefix of all matching indices where items show what the loops test, exactly the first ones unless the scan budget ran out |
| Paging.WalkEnds | app/commerce_provider/catalog.py:2678-2814 | A walk can go on exactly while items remain and the next page fits the deepest window |
| PageToken.TokenRoundTrip | app/commerce_provider/catalog.py:2638-2649 | Decoding an encoded token gives digest and offset back, for every hexadecimal digest and offset |
| PageToken.DecodeOfEncode | app/commerce_provider/catalog.py:2638-2649 | Base64url decoding inverts encoding for every byte string (RFC 4648 section 5) |
| PageToken.PaddingRoundTrip | app/commerce_provider/catalog.py:2640-2644 | Stripping and restoring the padding gives the encoding back (RFC 4648 section 3.2) |
| Minting.ValidateProposal | app/commerce_provider/minting.py:131-215 | Validation accepts exactly the acceptable proposals and returns their trimmed fields |
| Minting.NormalizeStyles | app/commerce_provider/minting.py:85-128 | A style matrix is accepted exactly if it has 4 to 8 distinct, sized, unblocked styles of at least two brands |
| Minting.AcceptedShape | app/commerce_provider/minting.py:131-215 | An accepted proposal can be registered exactly if trimming creates no clash with the variant key and its styles fit a pair; its attribute names are distinct and its values not empty |
| Minting.CompactIgnoresSpace | app/commerce_provider/minting.py:119-197 | White space anywhere in a text does not tell it from another when names and values are compared |
| Minting.StylesAlikeExactly | app/commerce_provider/minting.py:85-128 | Two styles count as one exactly if brand and series both agree but for spacing and case |
| Minting.TrimmedIsKept | app/commerce_provider/minting.py:131-215 | A proposal whose texts are trimmed already is stored as sent |
| Minting.TrimmedNamesSuffice | app/commerce_provider/minting.py:175 | Names sent already trimmed never clash |
| Minting.ClashExample | app/commerce_provider/minting.py:175 | An accepted proposal that clashes after trimming |
| MintLog.LogReplay | app/commerce_provider/core.py:339-534 | Over any run of proposals, retries, deaths and restarts rows are numbered 1..k within the limit, names never repeat, the live catalog is the static one plus the loadable rows in order, and a restart succeeds exactly if all rows are loadable, with the same catalog |
| MintLog.ReloadExactly | app/commerce_provider/core.py:339-384 | Reloading succeeds exactly if every row is loadable and rebuilds what registering one by one had built |
| MintLog.RebuiltExactly | app/commerce_provider/core.py:339-384 | When all rows are loadable the dynamic categories are exactly the rows in seq order, over the same partition |
| MintLog.LogsExtend | app/commerce_provider/core.py:339-384 | A longer log only extends the catalog a shorter one rebuilds |
| MintLog.SkusKeepMeaning | app/commerce_provider/core.py:339-534 | At any two moments of a run with a live process, every SKU of the earlier catalog denotes the same item in the later one |
| MintLog.RetryIsStable | app/commerce_provider/core.py:437-461 | Repeating a committed request later gives the answer its own row decides and changes nothing |
| MintLog.UsedKeyExactly | app/commerce_provider/core.py:437-461 | An acceptable proposal under a used key changes nothing and is a conflict exactly if the key belongs to another operation or owner, or to other arguments or another source |
| MintLog.NewProposalExactly | app/commerce_provider/core.py:463-524 | An acceptable proposal under a new key is answered with an existing category exactly if one in the catalog has its name, which that one has; is a conflict exactly if only the log has it; commits exactly if nobody has and there is room |
| MintLog.SourcesAlikeExactly | app/commerce_provider/core.py:433 | Sources count as one exactly if, trimmed, they agree in their first two hundred characters |
| MintLog.OnlyNamesCollide | app/commerce_provider/core.py:471-524 | A new row's number and id are always free; only its normalized name can be taken |
| MintLog.ClashStopsRestart | app/commerce_provider/core.py:437-534 | A clashing proposal commits and is refused in one answer, and no later restart succeeds |
| MintStore.MintProvider.Propose | app/commerce_provider/core.py:386-534 | The in-place proposal with its receipt, row and live registration has the effect and answer of its specification |
| MintStore.MintProvider.LoadDynamicCategories | app/commerce_provider/core.py:339-384 | The start-up loop leaves the catalog the log rebuilds, or stops |
| Storefront.MintingKeepsQuotes | app/commerce_provider/core.py:386-534 | Minting and restarting never spoil an open quote: a line that could be bought at its price on an earlier live catalog still can on any later one |
| Storefront.SearchAfterMinting | app/commerce_provider/catalog.py:2652-2814 | After any run of the mint log a planned query meets the search's demands; each described match holds every text term; and if its items show what the loops test, its pages list, in order, a prefix of exactly the matches |
| Storefront.LiveSearchExactly | app/commerce_provider/catalog.py:2652-2814 | On the catalog any run leaves live every query that words and filters give is exact if and only if every item shows what the loops test; distinct unreserved names, static and minted, suffice |
| CatalogExamples.AcceptedYetMisjudged | app/commerce_provider/minting.py:131-215 | An accepted, committed and live proposal with an attribute named like the brand key whose item the empty text with one filter describes and the loops pass over |
| Storefront.InStockIsSellable | app/commerce_provider/core.py:537-567 | Given the present stock rows, checkout's validation takes one unit of any index the loops list for a search of goods in stock |
| Storefront.LiveIsGood | app/commerce_provider/core.py:339-384 | Every catalog a run leaves live is partitioned on the brand grid with well-formed categories that fit their pairs |
| Storefront.RunWellMade | app/commerce_provider/minting.py:131-215 | Every committed row has distinct attribute names, a value for each attribute and no empty style matrix |
| SlidingWindow.AdmittedExactly | app/middleware/rate_limiter_redis.py:41-56 | A request is admitted exactly if fewer than `limit` distinct members were admitted in the window ending with it |
| SlidingWindow.WindowBound | app/middleware/rate_limiter_redis.py:41-56 | In any half-open window at most `limit` distinct members are admitted, for every ordered trace |
| SlidingWindow.SlidingWindowBound | app/middleware/rate_limiter_redis.py:108-130 | With distinct members at most `limit` requests are admitted in any half-open window |
| SlidingWindow.ExpiryHarmless | app/middleware/rate_limiter_redis.py:41-56 | Key expiry never drops an entry the window would still count and never changes an answer |
| SlidingWindow.TtlCovers | app/middleware/rate_limiter_redis.py:121-129 | The ceiling time to live covers the truncated window |
| SlidingWindow.IdleKeyGoes | app/middleware/rate_limiter_redis.py:41-56 | A key idle for its time to live is dropped with everything in it |
| SlidingWindow.RedisKey.Eval | app/middleware/rate_limiter_redis.py:41-56 | The script's commands prune, count and add in place as specified; the slots left and the entries logged make up the limit |
| WindowLimits.BurstExactly | app/middleware/rate_limiter_redis.py:41-56 | Of equal requests on a log with k live entries all pass if k + 1 is below the limit, one if it meets the limit, none on a full log |
| WindowLimits.RepeatsExactly | app/middleware/rate_limiter_redis.py:108-130 | n requests printing one new instant after k admitted in the window push it past the limit exactly if k + 1 < limit < k + n |
| WindowLimits.RepeatsAllowedExactly | app/middleware/rate_limiter_redis.py:108-130 | With repeated instants allowed, the window bound holds for everything a client can send if and only if the limit is at most one |
| WindowLimits.AnyOrderExactly | app/middleware/rate_limiter_redis.py:108-130 | With different instants arriving in any order, the window bound holds for everything a client can send if and only if the limit is at most one |
| RealWindows.OffGridExactly | app/middleware/rate_limiter_redis.py:108-130 | On a real interval at most k times the limit of requests at different instants is admitted, whatever is sent, if and only if the interval touches no more milliseconds than k windows have |
| RealWindows.RealWindowBound | app/middleware/rate_limiter_redis.py:108-130 | Any real interval as long as the configured window admits at most twice the limit, three times where the script's window is one cut millisecond |
| MemberText.SameAnswers | app/middleware/rate_limiter_redis.py:41-56 | On members renamed so that those of the trace stay apart, the script's log and every answer are the same |
| MemberText.TextIsEnough | app/middleware/rate_limiter_redis.py:118-119 | Whatever prints the instants into members: if it tells a client's arrivals apart, each is answered as on the values |
| MemberText.TextAdmissions | app/middleware/rate_limiter_redis.py:118-119 | So every window admits as many of the printed requests as of the values |
| MemberText.SomeTextTells | app/middleware/rate_limiter_redis.py:118-119 | For any arrivals some text tells their instants apart |
| TokenBuckets.TokenBucketBound | app/middleware/rate_limiter.py:41-68 | Whatever the clock does, tokens never exceed the capacity and admissions in a half-open interval never exceed the capacity plus rate times its length, and stay below it when the bucket refills |
| TokenBuckets.Account | app/middleware/rate_limiter.py:41-68 | Wherever the clock goes, admissions plus tokens left never exceed the capacity plus what time refilled since the interval began |
| TokenBuckets.BurstExact | app/middleware/rate_limiter.py:41-68 | Of simultaneous requests a new bucket admits exactly its capacity, or all |
| TokenBuckets.SteadyAdmitted | app/middleware/rate_limiter.py:41-68 | A client that leaves time to refill one token is never refused |
| TokenBuckets.DebtExactly | app/middleware/rate_limiter.py:58-68 | Along any trace a bucket is ever in debt exactly if, from a bucket out of debt, some step back of the clock was worth more than the tokens left |
| TokenBuckets.TokenBucket.TryConsume | app/middleware/rate_limiter.py:41-68 | Refill and consumption in place as specified |
| Failover.FailoverBound | app/middleware/rate_limiter_redis.py:133-191 | However requests are routed between Redis and the fallback, and whatever others send, one process lets through fewer than three times the limit in any real interval touching no more milliseconds than the window |
| Failover.FailoverBoundIsSharp | app/middleware/rate_limiter_redis.py:133-191 | For every positive limit and window of whole milliseconds a trace passes 3 * limit - 1 requests in one window |
| Failover.FailoverRealWindow | app/middleware/rate_limiter_redis.py:133-191 | In any real window, wherever it lies on the milliseconds, fewer than four times the limit pass, five where the script's window is one cut millisecond |
| Failover.EndpointRateLimiter.Check | app/middleware/rate_limiter_redis.py:180-191 | Redis answers and no bucket changes, or the client's own bucket answers |
| Failover.EndpointRateLimiter.FallbackCheck | app/middleware/rate_limiter_redis.py:133-145 | The client's bucket, created full on first use, pays or refuses; no other client's bucket changes |
| Tickets.TicketSafety | app/repositories/ticket_repository.py:463-609 | Under any interleaving each session has at most one active ticket, resolved stays resolved, a set assignee or claim time never changes, and priority and reason change only on a strict rise |
| Tickets.ClaimedAtMostOnce | app/repositories/ticket_repository.py:523-566 | Each ticket is claimed at most once, and not at all once it has left the open state |
| Tickets.EscalationMemory | app/repositories/ticket_repository.py:460-521 | Over any run a ticket's escalation map holds, for every reason of a high-priority request it served, that reason's latest request |
| Tickets.ContextKept | app/repositories/ticket_repository.py:495-517 | Over any run a ticket keeps its original context and shows the latest request merged into it |
| Tickets.UrgencyIsFirst | app/repositories/ticket_repository.py:506-508 | Over any run a ticket's priority is the most urgent of its start and the requests it served, and its reason that of the first to reach it |
| Tickets.TicketFate | app/repositories/ticket_repository.py:523-609 | Over any run an open ticket belongs to whoever first claims or resolves it, from the time of that claim, and is resolved exactly if someone then resolves it |
| Tickets.OpenedAs | app/repositories/ticket_repository.py:434-482 | A ticket opened along a run shows session, user and time of the insert that opened it, whose request is the first it served, and keeps that request's context |
| Tickets.EscalationShown | app/repositories/ticket_repository.py:460-521 | The entry of an urgent reason shows reason, context and time of that reason's latest request |
| Tickets.TicketRepository.CreateOrReuse | app/repositories/ticket_repository.py:434-521 | With other actors acting before every statement, it returns an active ticket of the session that served the request and is at least as urgent; it gives up exactly if all three rounds fail, each because an actor resolved the session's active ticket between its insert and read |
| Tickets.TicketRepository.TryMerge | app/repositories/ticket_repository.py:485-520 | The locked merge in place |
| Tickets.TicketRepository.ClaimTicket | app/repositories/ticket_repository.py:523-566 | The claim wins exactly on an open ticket and stamps agent and time |
| Tickets.TicketRepository.ResolveTicket | app/repositories/ticket_repository.py:568-609 | The resolve succeeds exactly on an active ticket and keeps an assignee already set |
| TicketQueue.PositionIsRank | app/repositories/ticket_repository.py:152-172 | Exactly open tickets have positions, each one plus the number of open tickets smaller in priority, created time and id |
| TicketQueue.PositionsFollow | app/repositories/ticket_repository.py:138-147 | Of two open tickets the more urgent stands first, of equally urgent ones the earlier, of those the one entered first |
| TicketQueue.PositionsBijective | app/repositories/ticket_repository.py:152-182 | Positions are a bijection of the open tickets onto 1..count |
| TicketQueue.PagesConcatenate | app/repositories/ticket_repository.py:117-150 | Consecutive pages concatenate to the serving order |
| TicketQueue.OrderUnique | app/repositories/ticket_repository.py:138-147 | The order is strict, so whatever sort the database uses it returns this listing |
| TicketQueue.ClaimLeavesOrder | app/repositories/ticket_repository.py:523-566 | Claiming takes the ticket out of the order and moves nothing else |
| TicketQueue.ClaimShiftsPositions | app/repositories/ticket_repository.py:152-172 | Claiming lowers by one exactly the positions behind the ticket |
| TicketQueue.PositionInQueue | app/repositories/ticket_repository.py:152-172 | The scan of the ordered ids finds the position |
| Sse.FrameRoundTrip | app/api/v1/chat.py:571-578 | Decoding one chunk's frame gives one message: the chunk with its line ends made LF, for every chunk, empty and newline-only ones included |
| Sse.StreamRoundTrip | app/api/v1/chat.py:656-689 | Decoding a whole stream gives the event of every item in order, then the closing message |
| Sse.ContentContract | app/api/v1/chat.py:571-589 | The default messages of a stream mixing chunks, traces and pings are exactly the content, whatever named frames it carries |
| Sse.TextsDeliveredExactly | app/api/v1/chat.py:656-689 | The default messages are all yielded texts, line ends made LF, if and only if none is the heartbeat's or the stream error's |
| Sse.NormalizeMeans | app/api/v1/chat.py:577 | The two replacements turn each CRLF and each CR into one LF and change nothing else |
| Sse.Generate | app/api/v1/chat.py:656-689 | The yielding loop writes the frames of its items in order, then the closing frame |
| IsoTime.IsoOrder | app/commerce_provider/core.py:57-63 | Over all UTC datetimes, byte order of the texts is chronological order although zero microseconds are omitted |
| IsoTime.IsoRoundTrip | app/commerce_provider/core.py:57-63 | Reading back a printed time gives the time |
| IsoTime.ExpiryTestsAgree | app/commerce_provider/core.py:720-801 | The SQL string test for an open quote agrees with the datetime expiry test of order creation |

## Left out

- Names and attribute texts of cart lines, and created/updated timestamps: copied, never decided upon.
- JSON and SHA-256 of request arguments: kept as structural values under an injective digest.
- Request keys of `propose_category` in the commerce state machine: its receipts hold the five commerce operations, and `MintLog` sees their keys as another operation's.
- Text of the query blob and the price formulas: arbitrary functions, so only their use is modelled.
- Price and newest sort orders of a search: documented as approximate once the window grows.
- Sse.ContentContract: takes payloads of named frames to be one line, as JSON text is, and a name other than `message`; citations and completion frames are named frames.
- PageToken.TokenRoundTrip: decoding accepts the shapes the encoder writes; the leniency of the platform's Base64 and JSON readers on foreign tokens is not modelled.
- IsoTime.IsoRoundTrip: reads the shapes `isoformat` writes for UTC; other offsets and shortened forms are not modelled.
- Failover.FailoverBound: counts one client of one process whose requests reach Redis at increasing instants; shared Redis state from other processes is arbitrary.
- SlidingWindow.SlidingWindowBound: for instants that reach Redis in order; `WindowLimits.AnyOrderExactly` has the other case, with key expiry on the request's clock.
- TokenBuckets.TokenBucketBound: exact reals in place of floating point.
- Failover.EndpointRateLimiter.FallbackCheck: answers whether the request passes, not the tokens left that the source reports beside it.
- Listing of fault rules, and `propose_category` passing through `_mutate`'s fault lookup, for which no fault can be planned.
- Thread cancellation between a mint's commit and its registration beyond the modelled process death, and reads during a registration.
- SQLite, PostgreSQL and Redis internals; isolation is taken as serialized writes and atomic statements.
- Ticket statistics, history and containment queries, and the middleware's idle-bucket cleanup.
- HTTP routes, authentication, retrieval, dialogue and the category data table.
