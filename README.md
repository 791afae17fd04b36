# Discount scoring engine — a Dafny model

This project models the discount engine behind the `POST /` route of
`src/routes/discount.js`. The route takes four request fields: `ageRange`,
`zipCode`, `deviceType` and `deviceAge`. It works in five stages, and the
first failing stage ends the request:

1. presence checks, in the order ageRange, zipCode, deviceType, deviceAge;
2. `parseFloat` of the device age, plus a NaN and sign check;
3. four factor lookups: the age bracket (`getAgeFactor`), the ZIP
   purchasing-power table, the device value table with its first-match
   bucket scan (`getDeviceFactor`), and the `"mobile"` channel factor;
4. the product of the four factors, called the purchasing-power score;
5. `calculateDiscount`, which maps the score onto [5, 30] with a clamped
   inverse-linear formula.

The model also covers the status rule of the error-handling middleware
(`src/middleware/errorHandler.js`): an error sent while the status is still
the default 200 goes out as 500.

Everything is pure. Each stage that can fail returns `Result<T, Failure>`,
and `Evaluate` chains those stages with `:-`, so the first error wins as the
first `throw` does. The presence checks are an if-chain inside `Evaluate`;
the lemma `FirstMissingOfRequired` ties that chain to the reference
definition `FirstMissing`. `ChannelFactor`, `Score` and `CalculateDiscount`
cannot fail and return plain `real`. The two reference tables are
parameters: `ZipTable = map<string, real>`, and a `DeviceTable` that maps a
lower-case device type to a retail price and its buckets in key order. The
arithmetic is over `real`.

Modules:
- `Wrappers`: `Option` and `Result`.
- `JsValues`: the JSON values a field can hold (`Undefined`, `Null`, `Bool`, `Num`, `Str`), JavaScript truthiness, `String(x)`, `parseFloat`, ASCII `toLowerCase`.
- `ReferenceData`: the two tables and inclusive bucket membership.
- `Discount`: the engine.
- `ErrorHandler`: the try/catch, the middleware's status and message rules, and the final reply.
- `DiscountProperties`: lemmas that relate stages and calls.
- `DiscountScenarios`: worked examples against small concrete tables.

JavaScript runtime conversions the model does not define are supplied as a
`Runtime` value. These are `parseFloat` on a string (`None` for NaN) and the
number-to-string conversion used when a number becomes an object key.
`parseFloat` of a number is taken to give back that number.

Behaviours of the code worth knowing, all of which the model keeps:
- An invalid age bracket, an unknown device type and an age outside every bucket are thrown without a status. The code therefore reports them as 500, not as client errors.
- A ZIP code whose index is 0 is reported as "not found" (404), like a missing key.
- The presence check is truthiness. So numeric `0` as device age is reported as missing, while the text `"0"` is accepted and parses to 0.
- An unknown ZIP code gets 404 only after the presence checks, the device-age check and the age bracket have all passed. An earlier error is reported first.
- A non-string device type that is truthy (a number or `true`) fails on `toLowerCase` with a TypeError. That error also ends as 500.

## Model

| member | source | states |
|---|---|---|
| `JsValues.Truthy` | src/routes/discount.js:12-41 | a value is falsy exactly when it is undefined, null, false, 0 or the empty string |
| `JsValues.ToText` | src/routes/discount.js:40-43 | a string field is its own key and template text; a number becomes the runtime's number text |
| `JsValues.ParseFloat` | src/routes/discount.js:30 | numbers parse to themselves, strings go through the runtime's parseFloat, and every other value is NaN |
| `JsValues.Lower` | src/routes/discount.js:85 | has the same length as the input, and each character is the ASCII lower case of the input character at that position |
| `JsValues.LowerOfLowercase` | src/routes/discount.js:85 | a string with no upper-case letter is its own lower case |
| `Discount.StatusCode` | src/routes/discount.js:12-44 | the status is left at 200 exactly for the age-bracket error, the TypeError and the two device-lookup errors; it is 404 exactly for an unknown ZIP code |
| `Discount.Message` | src/routes/discount.js:12-96 | every error has a non-empty message |
| `Discount.RequiredFields` | src/routes/discount.js:12-27 | four fields with four distinct missing-field errors, starting with ageRange and ending with deviceAge |
| `Discount.FirstMissing` | src/routes/discount.js:12-27 | gives no error iff every field is truthy; otherwise it gives the error of a falsy field preceded only by truthy ones |
| `Discount.ParsedDeviceAge` | src/routes/discount.js:30-34 | succeeds iff the parsed age is a number >= 0 (zero included), returns that number, and otherwise fails with the device-age error |
| `Discount.AgeFactor` | src/routes/discount.js:73-81 | succeeds iff the value is exactly one of the strings 18-25, 26-35, 36-45, 46+; gives 0.7, 0.85, 1.0, 0.9 for them, and the age-range error for anything else |
| `Discount.ZipPower` | src/routes/discount.js:40-44 | succeeds iff the exact key is in the table with a non-zero index, and returns that index; otherwise gives ZipNotFound(key) |
| `Discount.FindBucket` | src/routes/discount.js:91-94 | a found index is the first bucket, in key order, that contains the age with both ends inclusive; nothing is found iff no bucket contains it |
| `Discount.DeviceValue` | src/routes/discount.js:88-99 | succeeds iff a first matching bucket exists, and then gives retail price times that bucket's multiplier; otherwise the "Invalid device age" error |
| `Discount.DeviceFactor` | src/routes/discount.js:84-100 | a non-string type fails on toLowerCase; a lower-cased type not in the table fails with "Device type not found"; otherwise the result is the entry's bucket value |
| `Discount.FirstMatchUnique` | src/routes/discount.js:91 | there is at most one first matching bucket |
| `Discount.ChannelFactor` | src/routes/discount.js:50 | 0.9 iff the lower-cased device type is "mobile", and 1.0 iff it is not |
| `ReferenceData.Contains` | src/routes/discount.js:92-93 | a bucket with a NaN or missing bound, or with max below min, holds no age; a held age is one of the bounds or strictly between them |
| `Discount.Score` | src/routes/discount.js:53 | the product does not depend on the order of the factors, and any zero factor gives a zero score |
| `Discount.RawDiscount` | src/routes/discount.js:107 | equals 30 - (score - 30000)/4800; exactly 30 at 30000 and 5 at 150000 |
| `Discount.CalculateDiscount` | src/routes/discount.js:103-110 | always within [5, 30]; equals 30 - (score - 30000)/4800 on the band [30000, 150000]; saturates at 30 below it and at 5 above it |
| `Discount.Evaluate` | src/routes/discount.js:9-56 | a successful result has a discount in [5, 30] that is the mapping of its purchasing power |
| `ErrorHandler.ResponseStatus` | src/middleware/errorHandler.js:5 | never 200; a status set before the throw is kept |
| `ErrorHandler.ResponseMessage` | src/middleware/errorHandler.js:7 | never empty; a non-empty message is kept |
| `ErrorHandler.HttpStatus` | src/middleware/errorHandler.js:5 | 400 exactly for the missing-field and device-age errors; 404 exactly for an unknown ZIP code; 500 exactly for the age-bracket, TypeError and device-lookup errors |
| `ErrorHandler.Respond` | src/routes/discount.js:58-69 | status 200 iff the engine succeeds, with the quote as the body; otherwise the error's final status and message |
| `DiscountProperties.DiscountAntitone` | src/routes/discount.js:107-109 | a higher score never gives a higher discount |
| `DiscountProperties.DiscountCalibration` | src/routes/discount.js:104-109 | exactly 30 at 30000, 17.5 at 90000 and 5 at 150000 |
| `DiscountProperties.DiscountStrictInBand` | src/routes/discount.js:107 | strictly decreasing inside the calibration band |
| `DiscountProperties.PresenceChecksFirst` | src/routes/discount.js:12-27 | the first falsy field in the fixed order is the result, before any parsing or lookup, with status 400; a missing-field error is only ever reported for that field |
| `DiscountProperties.FirstMissingOfRequired` | src/routes/discount.js:12-27 | the order ageRange, zipCode, deviceType, deviceAge unrolled |
| `DiscountProperties.ZeroDeviceAge` | src/routes/discount.js:24-31 | numeric 0 is falsy; "0" is truthy and parses to 0 |
| `DiscountProperties.NumericZeroAgeIsMissing` | src/routes/discount.js:24-27 | a numeric 0 device age ends with "Device age is required" once the other fields are present |
| `DiscountProperties.DeviceAgeStage` | src/routes/discount.js:30-34 | with all fields present, an unparsable or negative age is rejected with status 400, and zero is not rejected |
| `DiscountProperties.AgeRangeStage` | src/routes/discount.js:37 | after stages 1-2 pass, a bad bracket is the result and is sent as 500 |
| `DiscountProperties.ZipStage` | src/routes/discount.js:40-44 | after the bracket passes, an absent or zero-valued ZIP entry fails with 404, whatever the device fields hold |
| `DiscountProperties.DeviceStage` | src/routes/discount.js:47 | after the ZIP lookup passes, any device-factor error is the result and is sent as 500 |
| `DiscountProperties.EvaluateSuccess` | src/routes/discount.js:30-65 | success iff every stage passes; then the score is the product of the four factors, the discount is its mapping, and the fields are echoed with the parsed age |
| `DiscountProperties.BucketBoundsInclusive` | src/routes/discount.js:92-93 | an age equal to either bound resolves to that bucket when no earlier bucket holds it |
| `DiscountProperties.AboveHighLeavesBucket` | src/routes/discount.js:91-96 | an age above the upper bound never resolves to that bucket, and the lookup fails if no other bucket holds it |
| `DiscountProperties.ScoreChannel` | src/routes/discount.js:50-53 | the mobile factor scales the score by exactly 0.9 |
| `DiscountProperties.ScoreNonNegative` | src/routes/discount.js:53 | non-negative factors give a non-negative score |
| `DiscountProperties.ScoreMonotoneInZip` | src/routes/discount.js:53 | with non-negative other factors, the score grows with the ZIP power |
| `DiscountProperties.DeviceFactorNonNegative` | src/routes/discount.js:99 | a table without negative values gives a non-negative device factor |
| `DiscountProperties.Factors` | src/routes/discount.js:37-53 | a successful score is Score(zip index, age factor, device factor, channel factor), with the age and channel factors positive |
| `DiscountProperties.MobileChannelDiscount` | src/routes/discount.js:50-56 | "mobile" against another type with the same entry: the score is exactly 0.9 times the other's, and the discount is never lower |
| `DiscountProperties.ChannelNeverLowersDiscount` | src/routes/discount.js:50-56 | scaling any score by 0.9 never lowers the discount |
| `DiscountProperties.ZipPowerNeverRaisesDiscount` | src/routes/discount.js:40-56 | a higher index for the same ZIP code never raises the discount when the device table holds no negative values |
| `DiscountScenarios.ScenarioSaturatesAtFive` | src/routes/discount.js:53-56 | index 100000, bracket 36-45 and device factor 50000 give score 5e9 and discount 5 |
| `DiscountScenarios.ScenarioCalibrationPoints` | src/routes/discount.js:53-56 | scores 30000 and 90000 give discounts 30 and 17.5 |
| `DiscountScenarios.ScenarioCaseInsensitiveDevice` | src/routes/discount.js:85 | "Laptop" resolves to the "laptop" entry |
| `DiscountScenarios.ScenarioZeroAge` | src/routes/discount.js:24-34 | the text "0" yields a quote with age 0; the number 0 yields 400 "Device age is required" |
| `DiscountScenarios.ScenarioBucketGap` | src/routes/discount.js:96 | an age between the buckets "0-1" and "2-4" yields 500 "Invalid device age" |
| `DiscountScenarios.ScenarioZeroZipPower` | src/routes/discount.js:41-43 | a ZIP code whose index is 0 yields 404 "ZIP Code '00000' not found" |

## Left out

- Express routing, body parsing, CORS, dotenv and `app.listen` in app.js: these are transport and process start-up.
- Logging of the stack and hiding it in production (errorHandler.js:3, 8): these are output side effects and carry no decision logic.
- Loading `../data/*.json`: the two tables are parameters, and their contents are not part of this model.
- `toFixed(2)` formatting of `discount` and `purchasingPower`: the model returns the real values, because decimal formatting is presentation.
- IEEE-754 doubles: the arithmetic is over `real`, so rounding, NaN and Infinity are not modelled. A table value that is NaN is not representable either.
- `JsValues.ParseFloat`: the prefix-parsing rules of `parseFloat` on strings are a `Runtime` parameter. A numeric field is taken to parse to itself, which holds for every finite number.
- `JsValues.ToText`: JavaScript's number-to-string conversion is a `Runtime` parameter.
- Bucket labels: the `split('-').map(Number)` of each label is taken as already done. Each bound is given as a number, or as None when `Number` gives NaN or the label has no `-`.
- `JsValues.Lower`: lower-cases ASCII letters only. Unicode case mapping in `toLowerCase` is not modelled.
- Keys inherited from `Object.prototype` (such as "constructor") are not modelled as table entries. In the source they are truthy lookups that go on to produce NaN scores or TypeErrors.
- JSON arrays and objects as field values are not modelled: fields are `undefined`, `null`, booleans, numbers or strings.
- The TypeError's text is the one the V8 runtime produces. Other engines word it differently.
