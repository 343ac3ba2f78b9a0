# Name-fortune stroke engine, modelled in Dafny

This project models the scoring engine of a Korean name-fortune app (`services/strokeEngine.ts`).
It covers two computations:

- **Stroke counting.** `getHangulStroke` reads the first UTF-16 unit of a name character. If that unit is a precomposed Hangul syllable (U+AC00 to U+D7A3), it splits the syllable into lead, vowel and trail jamo. It uses the fixed arithmetic of section 3.12 ("Conjoining Jamo Behavior") of The Unicode Standard: 588 = 21 × 28 syllables per lead and 28 per vowel. It then adds up the stroke weights of the three jamo from the `HANGUL_STROKES_ENGINE` table. A missing weight counts as 0, and a character outside the block counts 0 strokes.
- **The four-aggregate report.** `analyzeFortune` takes the stroke counts of the surname (`s`) and the two given-name characters (`n1`, `n2`). From them it forms 원격 = n1+n2, 형격 = s+n1, 이격 = s+n2 and 정격 = s+n1+n2. It reduces pairs of these with `getMod`, which wraps to the base, so an exact multiple gives the base rather than 0. Each reduced pair is written as a two-digit key and looked up in `HEXAGRAM_DB`. A missing key falls back to a neutral placeholder. The result is four `FortuneResult` entries in a fixed order: 초년운, 중년운, 장년운, 총운.

Modules:

- `Types` (types.dfy): the record shapes `FortuneResult` and `HanjaItem`, from types.ts.
- `JsNumber` (js_number.dfy): the JavaScript semantics the engine relies on. This is `%` on integers, which truncates toward zero, and integer-to-text in a template literal. The module also has a parser that reads that text back, so the round trip can be proved.
- `StrokeEngine` (stroke_engine.dfy): `getMod`, the syllable decomposition, `getHangulStroke`, `getHex` and `analyzeFortune`, with their lemmas.
- `Arith` (arith.dfy) and `Wrappers` (wrappers.dfy): helpers. `Arith` holds the uniqueness of Euclidean quotient and remainder. `Wrappers` holds `Option`.

The two tables come from a constants module that is not part of this model. They are parameters: `StrokeTables` holds three `map<string, int>` keyed by jamo text, and `HexagramDb` is a `map<string, HexEntry>`. No table value is assumed.

Facts about `services/strokeEngine.ts` that shape the model:

- `analyzeFortune` emits exactly four entries, all hexagram entries of category 종합.
- Entry statuses are `good`, `bad` or `neutral`.
- The third entry is titled 장년운 (利格), although the comment at strokeEngine.ts:50 names it 말년운.
- `analyzeFortune` declares three further character parameters. It never reads them, and its caller passes only the three counts (App.tsx:102), so the model takes three integers.

## Model

| member | source | states |
|---|---|---|
| `JsNumber.JsRem` | services/strokeEngine.ts:5 | JavaScript's `n % d` lies strictly between -d and d. It has the sign of n, is congruent to n modulo d, and equals the Euclidean remainder when n ≥ 0. |
| `JsNumber.NatToString` | services/strokeEngine.ts:37 | The decimal text of a natural number is non-empty, is all digits and has no leading zero. It is exactly one character long exactly when the number is below 10. |
| `JsNumber.IntToString` | services/strokeEngine.ts:37 | The text of an integer in a template literal, in plain decimal: non-empty, starting with a minus sign exactly when the integer is negative, and all digits after that sign. |
| `JsNumber.ParseInt` | services/strokeEngine.ts:37 | The inverse of `IntToString`, used only by the proofs. It accepts exactly the texts made of an optional minus sign followed by at least one digit. |
| `JsNumber.NatToStringRoundTrip` | services/strokeEngine.ts:37 | Reading the digits of the decimal text back gives the number. |
| `JsNumber.IntToStringRoundTrip` | services/strokeEngine.ts:37 | `ParseInt` reads `IntToString(n)` back as `n` for every integer, negative ones included. |
| `JsNumber.IntToStringInjective` | services/strokeEngine.ts:37 | Different integers are written differently. |
| `JsNumber.SingleDigit` | services/strokeEngine.ts:37 | A number from 0 to 9 is written as its one digit. |
| `StrokeEngine.GetMod` | services/strokeEngine.ts:5 | `getMod(n, div)` is congruent to n modulo div. It equals div exactly when div divides n, and equals JavaScript's `n % div` otherwise. For n ≥ 0 it lies in 1..div. For negative n it is div or lies strictly between -div and 0. |
| `StrokeEngine.Wrap` | services/strokeEngine.ts:5 | Reference definition of wrap-to-base reduction, `(n - 1) mod base + 1`: always in 1..base. |
| `StrokeEngine.GetModIsWrap` | services/strokeEngine.ts:5 | On non-negative n, `getMod` equals the reference wrap-to-base reduction. |
| `StrokeEngine.GetModShift` | services/strokeEngine.ts:5 | Adding a multiple of div to a non-negative n does not change `getMod(n, div)`. |
| `StrokeEngine.GetModShift24` | services/strokeEngine.ts:52-55 | Adding a multiple of 24 leaves both reductions used by the report unchanged: modulo 8 and modulo 6. |
| `StrokeEngine.Compose` | services/strokeEngine.ts:12-14 | The lead/vowel/trail composition formula `cho*588 + jung*28 + jong` stays inside the 11,172-syllable block for in-range indices. |
| `StrokeEngine.Decompose` | services/strokeEngine.ts:12-14 | For an offset inside the block: cho < 19, jung < 21, jong < 28 (so the jamo-list lookups are in bounds), and composing the indices gives the offset back. |
| `StrokeEngine.DecomposeCompose` | services/strokeEngine.ts:12-14 | Decomposing a composed syllable gives back its indices, so decomposition is a bijection between offsets and index triples. |
| `StrokeEngine.Weight` | services/strokeEngine.ts:24-26 | The weight lookup with a 0 fallback: the stored weight when the key is present, 0 when it is absent, and never negative when no stored weight is. |
| `StrokeEngine.JamoStrokes` | services/strokeEngine.ts:20-26 | With non-negative weights the sum is at least the lead and vowel weights, which are non-negative. A syllable without a trail adds only its lead and vowel weights when the empty trail has no entry. |
| `StrokeEngine.StrokeOfOffset` | services/strokeEngine.ts:10-26 | An offset outside the block counts 0. With non-negative table weights the count is never negative. |
| `StrokeEngine.GetHangulStroke` | services/strokeEngine.ts:7-27 | Returns 0 for the empty string and for a first unit below U+AC00 or above U+AC00 + 11171. Returns a non-negative count whenever every table weight is non-negative. |
| `StrokeEngine.StrokeOfSyllable` | services/strokeEngine.ts:12-26 | The count of a syllable, whatever follows it, is the lead, vowel and trail weights of its own jamo added together, with a missing key counting 0. |
| `StrokeEngine.FirstCharOnly` | services/strokeEngine.ts:9 | Only the first character is read: the count of `s` equals the count of `s[..1]`. |
| `StrokeEngine.ComputeAggregates` | services/strokeEngine.ts:31-34 | 정격 = 형격 + n2 = 이격 + n1 = 원격 + s, and 형격 − 이격 = n1 − n2. All four aggregates are non-negative for non-negative counts. |
| `StrokeEngine.HexKey` | services/strokeEngine.ts:37 | The key `${upper}${lower}` has at least two characters. For two numbers from 0 to 9 it is exactly their two digit characters. |
| `StrokeEngine.GetHex` | services/strokeEngine.ts:36-43 | Returns the table row for the key `${upper}${lower}` when there is one. Otherwise it returns the placeholder with status neutral, the fixed description and the name `운명의 괘 (upper-lower)`. It never returns "undefined". |
| `StrokeEngine.HexKeyDeterminesPair` | services/strokeEngine.ts:37 | For two single digits 1..9 the key determines both digits, so distinct pairs never share a row. |
| `StrokeEngine.StageResult` | services/strokeEngine.ts:58-65 | One entry has category 종합, the given title and the tag `수치: upper-lower`. It copies name, description and status from the table row when the key is present, and otherwise carries the neutral placeholder's name and fixed description. |
| `StrokeEngine.AnalyzeFortune` | services/strokeEngine.ts:29-91 | Always exactly four entries. Each has category 종합 and one tag, and the titles come in the order 초년운, 중년운, 장년운, 총운. |
| `StrokeEngine.StageResultSpec` | services/strokeEngine.ts:57-90 | An entry built from two non-negative values reduced with bases up to 9 has three properties. Its tag is `수치: u-l` for the wrap-to-base digits u and l. Its name, description and status come from the two-digit row. When that row is absent, they come from the neutral placeholder. |
| `StrokeEngine.ReportFollowsReducedPairs` | services/strokeEngine.ts:45-90 | For non-negative counts the four entries are, in order, the stage entries of the pairs (형/8, 원/8), (형/8, 이/8), (형/8, 정/6) and (정/8, 원/8). Each one copies its row's status and description, and its tag shows the pair used for the lookup. |
| `StrokeEngine.ReportOfReducedValues` | services/strokeEngine.ts:52-55 | Two inputs whose five reduced values (형/8, 원/8, 이/8, 정/8, 정/6) agree give the same report. |
| `StrokeEngine.ReducedValuesShift24` | services/strokeEngine.ts:31-34 | Adding multiples of 24 to non-negative stroke counts leaves all five reduced aggregates unchanged. |
| `StrokeEngine.ReportPeriodic` | services/strokeEngine.ts:31-55 | Adding any multiple of 24 to any non-negative stroke count leaves the report unchanged. |
| `StrokeEngine.ExampleReport` | services/strokeEngine.ts:52-90 | Strokes 3, 4, 5 (원 9, 형 7, 이 8, 정 12) are looked up under the keys 71, 78, 76 and 41. The tags are `수치: 7-1`, `7-8`, `7-6` and `4-1`. Each entry carries the name, description and status of its key's hexagram. |

## Left out

- App.tsx, components/AdInterstitial.tsx, components/HanjaSelector.tsx and components/LuckCard.tsx are not modelled. They cover form state and validation alerts, the ad shown on every fifth analysis, scroll timers, the Hanja picker, colour mapping and the external form submission. All of this is UI, timing and network glue around the engine. In Hanja mode the caller passes the selected item's stroke count `s` straight to `analyzeFortune`; the model only declares `HanjaItem`.
- The contents of the constants module (`HANGUL_STROKES_ENGINE`, `HEXAGRAM_DB`) are not part of this model. Both tables are parameters, and no weight, key or entry is assumed.
- Text is a Dafny `string`, a sequence of Unicode scalar values, and `charCodeAt(0)` becomes `s[0] as int`. JavaScript strings are UTF-16, so a character above U+FFFF yields a high surrogate, and a lone surrogate cannot be written in Dafny at all. In every such case the first unit lies outside the syllable block, and the source and the model both return 0.
- Numbers are unbounded integers. Fractional or NaN stroke weights are not modelled. For integers, `w || 0` equals the weight when the key is present and 0 when it is absent, which is what `Weight` computes.
- `HEXAGRAM_DB` statuses are cast with `as any` in the source. The model assumes each row holds one of `good`, `bad` or `neutral`.
- `${n}` is modelled as plain decimal text (`IntToString`). That is exact for the values the engine writes, which are `getMod` results of at most 8 in absolute value. JavaScript's exponent form for magnitudes of 10^21 and above is not modelled.
- GetMod: requires `div > 0`. The source only calls it with 8 and 6; a zero divisor would give NaN in JavaScript.
- The periodicity and wrap-to-base lemmas assume non-negative stroke counts. Negative counts are still modelled: `getMod` follows JavaScript's truncating `%` and the key then carries a minus sign.
