/** The discount scoring engine of the POST handler in src/routes/discount.js:
    presence checks, device-age parsing, four factor lookups, their product and
    the clamped inverse-linear mapping onto a discount percentage. The first
    failing stage decides the error, as the first `throw` does in the
    handler. */
module Discount {
  import opened Wrappers
  import opened JsValues
  import opened ReferenceData

  /** The four fields destructured from the request body. */
  datatype Request = Request(ageRange: Value, zipCode: Value, deviceType: Value, deviceAge: Value)

  /** Every error the handler can end with. */
  datatype Failure =
    | MissingAgeRange          // status 400 set before the throw
    | MissingZipCode           // status 400
    | MissingDeviceType        // status 400
    | MissingDeviceAge         // status 400
    | BadDeviceAge             // status 400: NaN or negative after parseFloat
    | InvalidAgeRange          // thrown by getAgeFactor, no status set
    | ZipNotFound(key: string) // status 404
    | DeviceTypeNotAString     // `toLowerCase` called on a non-string: a TypeError, no status set
    | DeviceTypeNotFound       // thrown by getDeviceFactor, no status set
    | NoMatchingBucket         // thrown by getDeviceFactor, no status set

  /** The successful response body, before `toFixed(2)` formatting. */
  datatype Quote = Quote(
    discount: real,
    purchasingPower: real,
    ageRange: Value,
    zipCode: Value,
    deviceType: Value,
    deviceAge: real)

  /** `res.statusCode` when the error reaches the error handler: the value the
      handler set before throwing, or 200 if it set none. */
  function StatusCode(f: Failure): (code: int)
    ensures code == 200 <==> (f.InvalidAgeRange? || f.DeviceTypeNotAString? || f.DeviceTypeNotFound? || f.NoMatchingBucket?)
    ensures code == 404 <==> f.ZipNotFound?
  {
    match f
    case MissingAgeRange => 400
    case MissingZipCode => 400
    case MissingDeviceType => 400
    case MissingDeviceAge => 400
    case BadDeviceAge => 400
    case ZipNotFound(_) => 404
    case _ => 200
  }

  /** The error's message. The TypeError's text is the one the V8 runtime
      produces for this call. */
  function Message(f: Failure): (m: string)
    ensures m != ""
  {
    match f
    case MissingAgeRange => "Age range is required"
    case MissingZipCode => "ZIP Code is required"
    case MissingDeviceType => "Device type is required"
    case MissingDeviceAge => "Device age is required"
    case BadDeviceAge => "Device age must be a valid positive number"
    case InvalidAgeRange => "Invalid age range. Valid ranges are: 18-25, 26-35, 36-45, 46+"
    case ZipNotFound(key) => "ZIP Code '" + key + "' not found"
    case DeviceTypeNotAString => "deviceType.toLowerCase is not a function"
    case DeviceTypeNotFound => "Device type not found"
    case NoMatchingBucket => "Invalid device age"
  }

  // ---------------------------------------------------------------------
  // Stage 1: presence checks

  /** The required fields with the error each one's absence raises, in the
      order the handler tests them. */
  function RequiredFields(req: Request): (fields: seq<(Value, Failure)>)
    ensures |fields| == 4
    ensures forall i, j :: 0 <= i < j < |fields| ==> fields[i].1 != fields[j].1
    ensures fields[0].1 == MissingAgeRange && fields[3].1 == MissingDeviceAge
  {
    [(req.ageRange, MissingAgeRange), (req.zipCode, MissingZipCode),
     (req.deviceType, MissingDeviceType), (req.deviceAge, MissingDeviceAge)]
  }

  /** The error of the first falsy field of `fields`, if any. */
  function FirstMissing(fields: seq<(Value, Failure)>): (r: Option<Failure>)
    ensures r.None? <==> forall i :: 0 <= i < |fields| ==> Truthy(fields[i].0)
    ensures r.Some? ==> exists i :: 0 <= i < |fields| && !Truthy(fields[i].0) && r.value == fields[i].1 &&
                                    forall j :: 0 <= j < i ==> Truthy(fields[j].0)
  {
    if fields == [] then None
    else if !Truthy(fields[0].0) then Some(fields[0].1)
    else
      var rest := FirstMissing(fields[1..]);
      assert forall j :: 0 <= j < |fields| - 1 ==> fields[1..][j] == fields[j + 1];
      rest
  }

  // ---------------------------------------------------------------------
  // Stage 2: device age

  /** `parseFloat(deviceAge)` followed by the NaN and sign check: a negative or
      unparsable age is rejected, zero is accepted. */
  function ParsedDeviceAge(deviceAge: Value, rt: Runtime): (r: Result<real, Failure>)
    ensures r.Ok? <==> ParseFloat(deviceAge, rt).Some? && ParseFloat(deviceAge, rt).value >= 0.0
    ensures r.Ok? ==> r.value == ParseFloat(deviceAge, rt).value
    ensures r.Err? ==> r.error == BadDeviceAge
  {
    match ParseFloat(deviceAge, rt)
    case None => Err(BadDeviceAge)
    case Some(age) => if age < 0.0 then Err(BadDeviceAge) else Ok(age)
  }

  // ---------------------------------------------------------------------
  // Stage 3: factor lookups

  /** `getAgeFactor`: a strict-equality switch over the four bracket labels. */
  function AgeFactor(ageRange: Value): (r: Result<real, Failure>)
    ensures r.Ok? <==> ageRange in {Str("18-25"), Str("26-35"), Str("36-45"), Str("46+")}
    ensures ageRange == Str("18-25") ==> r == Ok(0.7)
    ensures ageRange == Str("26-35") ==> r == Ok(0.85)
    ensures ageRange == Str("36-45") ==> r == Ok(1.0)
    ensures ageRange == Str("46+") ==> r == Ok(0.9)
    ensures r.Err? ==> r.error == InvalidAgeRange
  {
    match ageRange
    case Str("18-25") => Ok(0.7)
    case Str("26-35") => Ok(0.85)
    case Str("36-45") => Ok(1.0)
    case Str("46+") => Ok(0.9)
    case _ => Err(InvalidAgeRange)
  }

  /** `zipPurchasingPower[zipCode]` and its truthiness check: the key is the
      field's text, used as is; an absent key and a zero index both fail. */
  function ZipPower(zipCode: Value, zips: ZipTable, rt: Runtime): (r: Result<real, Failure>)
    ensures r.Ok? <==> ToText(zipCode, rt) in zips && zips[ToText(zipCode, rt)] != 0.0
    ensures r.Ok? ==> r.value == zips[ToText(zipCode, rt)]
    ensures r.Err? ==> r.error == ZipNotFound(ToText(zipCode, rt))
  {
    var key := ToText(zipCode, rt);
    if key in zips && zips[key] != 0.0 then Ok(zips[key]) else Err(ZipNotFound(key))
  }

  /** Bucket `i` is the first one, in key order, that contains `age`. */
  predicate FirstMatch(buckets: seq<Bucket>, age: real, i: int) {
    0 <= i < |buckets| && Contains(buckets[i], age) &&
    forall j :: 0 <= j < i ==> !Contains(buckets[j], age)
  }

  /** The `Object.keys(...).find(...)` of `getDeviceFactor`: the index of the
      first bucket containing `age`, or None when no bucket does. */
  function FindBucket(buckets: seq<Bucket>, age: real): (r: Option<nat>)
    ensures r.Some? ==> FirstMatch(buckets, age, r.value)
    ensures r.None? <==> forall j :: 0 <= j < |buckets| ==> !Contains(buckets[j], age)
  {
    if buckets == [] then None
    else if Contains(buckets[0], age) then Some(0)
    else match FindBucket(buckets[1..], age)
      case None => None
      case Some(i) => Some(i + 1)
  }

  /** The second half of `getDeviceFactor`: the retail price times the
      multiplier of the first bucket, in key order, that contains the age. */
  function DeviceValue(d: Device, age: real): (r: Result<real, Failure>)
    ensures r.Ok? <==> exists i :: FirstMatch(d.buckets, age, i)
    ensures r.Err? ==> r.error == NoMatchingBucket
    ensures forall i :: FirstMatch(d.buckets, age, i) ==> r.Ok? && r.value == d.retailPrice * d.buckets[i].multiplier
  {
    var found := FindBucket(d.buckets, age);
    if found.None? then Err(NoMatchingBucket)
    else
      FirstMatchUnique(d.buckets, age, found.value);
      Ok(d.retailPrice * d.buckets[found.value].multiplier)
  }

  /** `getDeviceFactor`: the lower-cased device type must be a key of the
      device table; a non-string device type already fails on `toLowerCase`. */
  function DeviceFactor(deviceType: Value, age: real, devices: DeviceTable): (r: Result<real, Failure>)
    ensures !deviceType.Str? ==> r == Err(DeviceTypeNotAString)
    ensures deviceType.Str? && Lower(deviceType.s) !in devices ==> r == Err(DeviceTypeNotFound)
    ensures deviceType.Str? && Lower(deviceType.s) in devices ==> r == DeviceValue(devices[Lower(deviceType.s)], age)
  {
    match deviceType
    case Str(s) =>
      var key := Lower(s);
      if key !in devices then Err(DeviceTypeNotFound) else DeviceValue(devices[key], age)
    case _ => Err(DeviceTypeNotAString)
  }

  /** There is at most one first match. */
  lemma FirstMatchUnique(buckets: seq<Bucket>, age: real, i: int)
    requires FirstMatch(buckets, age, i)
    ensures forall k :: FirstMatch(buckets, age, k) ==> k == i
  {
  }

  /** The channel adjustment: 0.9 for the device type "mobile" in any letter
      case, 1.0 for every other string. */
  function ChannelFactor(deviceType: string): (f: real)
    ensures f == 0.9 <==> Lower(deviceType) == "mobile"
    ensures f == 1.0 <==> Lower(deviceType) != "mobile"
  {
    if Lower(deviceType) == "mobile" then 0.9 else 1.0
  }

  // ---------------------------------------------------------------------
  // Stage 4: the purchasing-power score

  /** The product of the four factors, in the handler's order. */
  function Score(zipPower: real, ageFactor: real, deviceFactor: real, typeFactor: real): (s: real)
    ensures s == deviceFactor * typeFactor * (ageFactor * zipPower)
    ensures zipPower == 0.0 || ageFactor == 0.0 || deviceFactor == 0.0 || typeFactor == 0.0 ==> s == 0.0
  {
    zipPower * ageFactor * deviceFactor * typeFactor
  }

  // ---------------------------------------------------------------------
  // Stage 5: score to discount

  const MinPurchasingPower: real := 30000.0
  const MaxPurchasingPower: real := 150000.0
  const MinDiscount: real := 5.0
  const MaxDiscount: real := 30.0

  /** The unclamped inverse-linear calibration. */
  function RawDiscount(score: real): (raw: real)
    ensures raw == 30.0 - (score - 30000.0) / 4800.0
    ensures score == MinPurchasingPower ==> raw == MaxDiscount
    ensures score == MaxPurchasingPower ==> raw == MinDiscount
  {
    30.0 - ((score - MinPurchasingPower) / (MaxPurchasingPower - MinPurchasingPower)) * 25.0
  }

  /** `calculateDiscount`: the calibration clamped into [5, 30]. Scores outside
      the calibration band saturate instead of failing. */
  function CalculateDiscount(score: real): (d: real)
    ensures MinDiscount <= d <= MaxDiscount
    ensures MinPurchasingPower <= score <= MaxPurchasingPower ==> d == 30.0 - (score - 30000.0) / 4800.0
    ensures score <= MinPurchasingPower ==> d == MaxDiscount
    ensures score >= MaxPurchasingPower ==> d == MinDiscount
  {
    var raw := RawDiscount(score);
    var capped := if raw < 30.0 then raw else 30.0;
    if 5.0 < capped then capped else 5.0
  }

  // ---------------------------------------------------------------------
  // The whole pipeline

  /** The POST handler from destructuring to the response body. */
  function Evaluate(req: Request, zips: ZipTable, devices: DeviceTable, rt: Runtime): (r: Result<Quote, Failure>)
    ensures r.Ok? ==> MinDiscount <= r.value.discount <= MaxDiscount
    ensures r.Ok? ==> r.value.discount == CalculateDiscount(r.value.purchasingPower)
  {
    if !Truthy(req.ageRange) then Err(MissingAgeRange)
    else if !Truthy(req.zipCode) then Err(MissingZipCode)
    else if !Truthy(req.deviceType) then Err(MissingDeviceType)
    else if !Truthy(req.deviceAge) then Err(MissingDeviceAge)
    else
      var age :- ParsedDeviceAge(req.deviceAge, rt);
      var ageFactor :- AgeFactor(req.ageRange);
      var zipPower :- ZipPower(req.zipCode, zips, rt);
      var deviceFactor :- DeviceFactor(req.deviceType, age, devices);
      var typeFactor := ChannelFactor(req.deviceType.s);
      var score := Score(zipPower, ageFactor, deviceFactor, typeFactor);
      Ok(Quote(CalculateDiscount(score), score, req.ageRange, req.zipCode, req.deviceType, age))
  }
}
