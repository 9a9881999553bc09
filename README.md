# throttl: per-domain token-bucket admission, modelled in Dafny

throttl answers one question for its clients: may I fetch this URL now? It
keys a continuous-refill token bucket by the URL's hostname. Every domain
gets a burst of `cap` requests, refilled at `cap / periodMs` tokens per
millisecond. Refill is computed lazily, at the moment a request is checked.
Unknown domains get a default bucket (30 requests per 60 000 ms) on first
sight. An administrative call can reconfigure a domain. A status call
reports how many domains are tracked.

The model has two modules:

- `BucketMath` (BucketMath.dfy) holds the `Bucket` record, the default
  policy `CAP`/`PERIOD`, and the refill formula `Refilled`. Token counts,
  caps and periods are exact `real`s. Timestamps are `int` milliseconds.
  The lemmas cover a single bucket: no tokens accrue at the same instant,
  the range is kept under a forward clock, and the bucket is full after one
  period.
- `Throttle` (Throttle.dfy) holds the registry. Its state transitions are
  first defined as functions on `map<string, Bucket>`: `RefillAt`
  (get-or-create plus refill), `CheckStep`, `Configured` and `CheckRun`
  (repeated checks). The service's promises are proved as lemmas about
  these functions. The class `Registry` holds the map as a mutable field.
  Its methods `Refill`, `Configure`, `Check` and `Status` update or read
  that field in place. Each method is proved to perform exactly the
  corresponding transition. The invariant `Valid()` says every bucket has
  `cap >= 0`, `periodMs > 0` and `tokens <= cap`.

The clock (`Date.now()` in the source) is a `now` parameter on every
operation.

The code does not clamp negative elapsed time. The lower bound
`tokens >= 0` therefore holds only while the clock does not run backwards
for the domain being checked (`ClockForward`). `Check` states it under that
condition, and `CheckKeepsRange` proves it. The upper bound `tokens <= cap`
holds unconditionally because of the clamp.

The code does not validate the configuration either: it stores any `cap`
and `periodMs`. The model requires `cap >= 0` and `periodMs > 0` of
`Configure`'s callers. It has no error result for an invalid configuration,
because the code has none.

## Model

| member | source | states |
|---|---|---|
| BucketMath.Refilled | index.ts:12-14 | the refilled bucket keeps its cap and period and is stamped `now`; its tokens are at most the cap, at most old tokens plus accrual, and equal to one of the two |
| BucketMath.RefillSameInstant | index.ts:12-14 | refilling at the timestamp of the last refill leaves a bucket whose tokens are within its cap unchanged |
| BucketMath.RefillKeepsRange | index.ts:12-13 | with `now >= last`, a refill keeps `0 <= tokens <= cap` and never lowers the token count |
| BucketMath.RefillFullAfterPeriod | index.ts:12-13 | once at least `periodMs` has elapsed, a refill leaves exactly `cap` tokens |
| Throttle.RefillAt | index.ts:9-17 | get-or-create then refill: adds the domain's key and no other; other keys unchanged; the domain's bucket becomes its existing (or default) bucket refilled at `now`; a new domain gets the default bucket (30 tokens, cap 30, period 60000); the invariant is kept |
| Throttle.CheckStep | index.ts:42-47 | a check admits exactly when the refilled bucket has at least one token; admitting takes exactly one token, refusing leaves the refilled count; only the checked key can be added, other keys are unchanged, the invariant is kept |
| Throttle.Configured | index.ts:25-26 | configuring sets the domain's bucket to `tokens = cap`, the given cap and period and `last = now`, leaves other keys alone, and keeps the invariant |
| Throttle.CheckRun | index.ts:42-47 | `n` consecutive checks at one instant yield `n` outcomes, keep the invariant and add only the checked key |
| Throttle.CheckKeepsRange | index.ts:12-13 | if every bucket holds `0 <= tokens <= cap` and the clock has not gone back for the checked domain, that still holds after a check, whatever it answers |
| Throttle.FirstCheckOfNewDomain | index.ts:11-16 | checking an unseen domain inserts exactly one key, admits, and leaves the bucket with 29 tokens, cap 30, period 60000, stamped `now` |
| Throttle.CheckKeyCount | index.ts:15 | a check never removes keys and grows the key count by one exactly when the domain was new |
| Throttle.ConfigureKeyCount | index.ts:26 | configuring never removes keys and grows the key count by one exactly when the domain was new |
| Throttle.ConfigureIdempotent | index.ts:26 | configuring twice with the same arguments and time gives the same registry as configuring once |
| Throttle.ConfigureForgetsPrevious | index.ts:26 | the result of configuring does not depend on the domain's previous bucket |
| Throttle.DeniedAtInstant | index.ts:43-47 | a bucket stamped `now` holding less than one token refuses every one of any number of checks at `now` |
| Throttle.DrainAtInstant | index.ts:43-47 | a bucket stamped `now` holding exactly `t` whole tokens, checked `n >= t` times at `now`, admits exactly the first `t` checks and refuses the rest |
| Throttle.BurstAfterConfigure | index.ts:26 | after configuring a whole-number cap `c`, any `n >= c` checks at the same instant admit exactly the first `c` and refuse all later ones, so never more than `c` are admitted |
| Throttle.CheckAdmitsAfterFullPeriod | index.ts:12-13 | after a full period since the last refill, a check of a domain with cap at least 1 is admitted and leaves `cap - 1` tokens, even from an exhausted bucket |
| Throttle.Registry.constructor | index.ts:3 | the registry starts empty and valid |
| Throttle.Registry.Refill | index.ts:9-17 | updates the map in place to `RefillAt` of the old map and returns the stored bucket |
| Throttle.Registry.Configure | index.ts:25-26 | an omitted cap or period takes the default 30 / 60000; the map becomes `Configured` of the old map |
| Throttle.Registry.Check | index.ts:42-47 | the answer and the new map are exactly `CheckStep` of the old map; `0 <= tokens <= cap` is kept under a forward clock |
| Throttle.Registry.Status | index.ts:54 | reports the number of keys in the map |
| Throttle.BurstOfTwo | index.ts:26 | a domain configured with cap 2 and period 1000 answers admit, admit, refuse at one instant, and one domain is tracked |

## Left out

- HTTP transport is not modelled: `Bun.serve` routing, the port, JSON request and response bodies, and the error handler (index.ts:19-63).
- URL parsing and hostname extraction (index.ts:32-40) are not modelled; they are done by the WHATWG URL library. The model takes the domain string as given. The two 400 responses belong to the transport.
- A configure request without a `domain` field is not modelled. In the source, the key would then be `undefined`.
- `Date.now()` is replaced by a `now: int` parameter on each operation.
- Logging (`console.log`, `console.error`) is not modelled.
- IEEE-754 double rounding is not modelled: tokens, caps, periods and the rate are exact reals.
- Throttle.Registry.Configure: requires `cap >= 0` and `periodMs > 0`, although the code stores any values. With `periodMs = 0` the code's rate becomes Infinity or NaN, which reals cannot represent, and a negative cap or period is not a meaningful configuration.
- Throttle.Registry.Check: the bound `tokens >= 0` is stated only when the clock has not run backwards for the checked domain. The code does not clamp negative elapsed time, so with a backwards clock it can drain tokens below zero.
- Bucket objects are modelled as values stored in the map, not as shared mutable objects. In the source, `bucket()` mutates the object held by the map and returns that same object, which the check handler then decrements. Nothing else holds a reference to it, so replacing the map entry is equivalent.
- Concurrency is not modelled. The handler has no `await` between refill and decrement, so each check runs atomically on the JavaScript event loop. The sequential model is exact.
