/** Properties of the discount engine that relate several calls or several
    stages of one call. */
module DiscountProperties {
  import opened Wrappers
  import opened JsValues
  import opened ReferenceData
  import opened Discount
  import opened ErrorHandler

  // ---------------------------------------------------------------------
  // Score to discount

  /** A higher score never gives a higher discount. */
  lemma DiscountAntitone(lo: real, hi: real)
    requires lo <= hi
    ensures CalculateDiscount(hi) <= CalculateDiscount(lo)
  {
    assert RawDiscount(hi) <= RawDiscount(lo) by {
      var span := MaxPurchasingPower - MinPurchasingPower;
      assert (hi - MinPurchasingPower) / span >= (lo - MinPurchasingPower) / span;
    }
  }

  /** The three calibration points: 30 at the bottom of the band, 17.5 at its
      middle, 5 at its top. */
  lemma DiscountCalibration()
    ensures CalculateDiscount(30000.0) == 30.0
    ensures CalculateDiscount(90000.0) == 17.5
    ensures CalculateDiscount(150000.0) == 5.0
  {
  }

  /** Inside the band the discount is strictly decreasing, so the mapping
      saturates only outside it. */
  lemma DiscountStrictInBand(lo: real, hi: real)
    requires MinPurchasingPower <= lo < hi <= MaxPurchasingPower
    ensures CalculateDiscount(hi) < CalculateDiscount(lo)
  {
  }

  // ---------------------------------------------------------------------
  // Presence checks

  predicate IsMissingField(f: Failure) {
    f.MissingAgeRange? || f.MissingZipCode? || f.MissingDeviceType? || f.MissingDeviceAge?
  }

  /** The first falsy field, in the order ageRange, zipCode, deviceType,
      deviceAge, is reported before anything is parsed or looked up; and a
      missing-field error is reported only for that field. */
  lemma PresenceChecksFirst(req: Request, zips: ZipTable, devices: DeviceTable, rt: Runtime)
    ensures FirstMissing(RequiredFields(req)).Some? ==>
              Evaluate(req, zips, devices, rt) == Err(FirstMissing(RequiredFields(req)).value)
    ensures Evaluate(req, zips, devices, rt).Err? && IsMissingField(Evaluate(req, zips, devices, rt).error) ==>
              FirstMissing(RequiredFields(req)) == Some(Evaluate(req, zips, devices, rt).error)
    ensures FirstMissing(RequiredFields(req)).Some? ==>
              HttpStatus(FirstMissing(RequiredFields(req)).value) == 400
  {
    FirstMissingOfRequired(req);
  }

  /** The reference order unrolled over the four fields. */
  lemma FirstMissingOfRequired(req: Request)
    ensures FirstMissing(RequiredFields(req)) ==
              if !Truthy(req.ageRange) then Some(MissingAgeRange)
              else if !Truthy(req.zipCode) then Some(MissingZipCode)
              else if !Truthy(req.deviceType) then Some(MissingDeviceType)
              else if !Truthy(req.deviceAge) then Some(MissingDeviceAge)
              else None
  {
    var f4: seq<(Value, Failure)> := [(req.deviceAge, MissingDeviceAge)];
    var f3 := [(req.deviceType, MissingDeviceType)] + f4;
    var f2 := [(req.zipCode, MissingZipCode)] + f3;
    assert RequiredFields(req) == [(req.ageRange, MissingAgeRange)] + f2;
    FirstMissingCons((req.deviceAge, MissingDeviceAge), []);
    FirstMissingCons((req.deviceType, MissingDeviceType), f4);
    FirstMissingCons((req.zipCode, MissingZipCode), f3);
    FirstMissingCons((req.ageRange, MissingAgeRange), f2);
  }

  /** One step of the reference order. */
  lemma FirstMissingCons(head: (Value, Failure), tail: seq<(Value, Failure)>)
    ensures FirstMissing([head] + tail) == if !Truthy(head.0) then Some(head.1) else FirstMissing(tail)
  {
    assert ([head] + tail)[1..] == tail;
  }

  /** The presence test is truthiness: a numeric 0 device age counts as
      missing, the string "0" does not, and parses to 0 when the runtime's
      `parseFloat` reads "0" as 0. */
  lemma ZeroDeviceAge(rt: Runtime)
    ensures !Truthy(Num(0.0))
    ensures Truthy(Str("0"))
    ensures rt.parseFloat("0") == Some(0.0) ==> ParsedDeviceAge(Str("0"), rt) == Ok(0.0)
  {
  }

  /** Numeric zero as the device age fails with the missing-field error once
      the other three fields are present. */
  lemma NumericZeroAgeIsMissing(req: Request, zips: ZipTable, devices: DeviceTable, rt: Runtime)
    requires Truthy(req.ageRange) && Truthy(req.zipCode) && Truthy(req.deviceType)
    requires req.deviceAge == Num(0.0)
    ensures Evaluate(req, zips, devices, rt) == Err(MissingDeviceAge)
  {
  }

  // ---------------------------------------------------------------------
  // Stage by stage

  /** All four fields are present. */
  predicate Present(req: Request) {
    Truthy(req.ageRange) && Truthy(req.zipCode) && Truthy(req.deviceType) && Truthy(req.deviceAge)
  }

  /** With all fields present, an unparsable or negative device age is
      rejected with status 400, and a zero age is accepted. */
  lemma DeviceAgeStage(req: Request, zips: ZipTable, devices: DeviceTable, rt: Runtime)
    requires Present(req)
    ensures ParseFloat(req.deviceAge, rt).None? ==> Evaluate(req, zips, devices, rt) == Err(BadDeviceAge)
    ensures ParseFloat(req.deviceAge, rt).Some? && ParseFloat(req.deviceAge, rt).value < 0.0 ==>
              Evaluate(req, zips, devices, rt) == Err(BadDeviceAge)
    ensures ParseFloat(req.deviceAge, rt) == Some(0.0) ==> Evaluate(req, zips, devices, rt) != Err(BadDeviceAge)
    ensures HttpStatus(BadDeviceAge) == 400
  {
  }

  /** With the fields present and the age valid, a bad age bracket is the
      next error, and it is sent as a server error. */
  lemma AgeRangeStage(req: Request, zips: ZipTable, devices: DeviceTable, rt: Runtime)
    requires Present(req) && ParsedDeviceAge(req.deviceAge, rt).Ok?
    requires AgeFactor(req.ageRange).Err?
    ensures Evaluate(req, zips, devices, rt) == Err(InvalidAgeRange)
    ensures Respond(req, zips, devices, rt).status == 500
  {
  }

  /** Once the fields, the age and the bracket pass, an unknown ZIP code, or
      one whose index is zero, fails with 404 whatever the device fields
      hold. */
  lemma ZipStage(req: Request, zips: ZipTable, devices: DeviceTable, rt: Runtime)
    requires Present(req) && ParsedDeviceAge(req.deviceAge, rt).Ok? && AgeFactor(req.ageRange).Ok?
    requires ToText(req.zipCode, rt) !in zips || zips[ToText(req.zipCode, rt)] == 0.0
    ensures Evaluate(req, zips, devices, rt) == Err(ZipNotFound(ToText(req.zipCode, rt)))
    ensures Respond(req, zips, devices, rt).status == 404
  {
  }

  /** The errors of `getDeviceFactor` come last and are sent as server
      errors. */
  lemma DeviceStage(req: Request, zips: ZipTable, devices: DeviceTable, rt: Runtime)
    requires Present(req) && ParsedDeviceAge(req.deviceAge, rt).Ok? && AgeFactor(req.ageRange).Ok?
    requires ZipPower(req.zipCode, zips, rt).Ok?
    requires DeviceFactor(req.deviceType, ParsedDeviceAge(req.deviceAge, rt).value, devices).Err?
    ensures Evaluate(req, zips, devices, rt) ==
              Err(DeviceFactor(req.deviceType, ParsedDeviceAge(req.deviceAge, rt).value, devices).error)
    ensures Respond(req, zips, devices, rt).status == 500
  {
  }

  /** A request succeeds exactly when every stage passes, and then the score
      is the product of the four factors, the discount is mapped from it, and
      the input fields are echoed with the parsed age. */
  lemma EvaluateSuccess(req: Request, zips: ZipTable, devices: DeviceTable, rt: Runtime)
    ensures Evaluate(req, zips, devices, rt).Ok? <==>
              Present(req) && ParsedDeviceAge(req.deviceAge, rt).Ok? && AgeFactor(req.ageRange).Ok? &&
              ZipPower(req.zipCode, zips, rt).Ok? &&
              DeviceFactor(req.deviceType, ParsedDeviceAge(req.deviceAge, rt).value, devices).Ok?
    ensures Evaluate(req, zips, devices, rt).Ok? ==>
              var q := Evaluate(req, zips, devices, rt).value;
              var age := ParsedDeviceAge(req.deviceAge, rt).value;
              && req.deviceType.Str?
              && q.purchasingPower == Score(ZipPower(req.zipCode, zips, rt).value, AgeFactor(req.ageRange).value,
                                            DeviceFactor(req.deviceType, age, devices).value,
                                            ChannelFactor(req.deviceType.s))
              && q.discount == CalculateDiscount(q.purchasingPower)
              && q.ageRange == req.ageRange && q.zipCode == req.zipCode && q.deviceType == req.deviceType
              && q.deviceAge == age
  {
  }

  // ---------------------------------------------------------------------
  // Device buckets

  /** An age equal to either bound of a bucket resolves to that bucket when no
      earlier bucket contains it. */
  lemma BucketBoundsInclusive(buckets: seq<Bucket>, k: nat, age: real)
    requires k < |buckets| && buckets[k].low.Some? && buckets[k].high.Some?
    requires buckets[k].low.value <= buckets[k].high.value
    requires age == buckets[k].low.value || age == buckets[k].high.value
    requires forall j :: 0 <= j < k ==> !Contains(buckets[j], age)
    ensures FindBucket(buckets, age) == Some(k)
  {
    var r := FindBucket(buckets, age);
    assert FirstMatch(buckets, age, k);
    FirstMatchUnique(buckets, age, k);
  }

  /** An age above a bucket's upper bound never resolves to that bucket: the
      lookup fails unless some other bucket contains it. */
  lemma AboveHighLeavesBucket(buckets: seq<Bucket>, k: nat, eps: real)
    requires k < |buckets| && buckets[k].high.Some? && eps > 0.0
    ensures FindBucket(buckets, buckets[k].high.value + eps) != Some(k)
    ensures (forall j :: 0 <= j < |buckets| && j != k ==> !Contains(buckets[j], buckets[k].high.value + eps)) ==>
              FindBucket(buckets, buckets[k].high.value + eps).None?
  {
  }

  // ---------------------------------------------------------------------
  // Channel factor and monotonicity

  lemma MulLeftMonotone(a: real, b: real, c: real)
    requires a <= b && c >= 0.0
    ensures a * c <= b * c
  {
  }

  /** The mobile channel factor scales the score by exactly 0.9. */
  lemma ScoreChannel(z: real, a: real, d: real)
    ensures Score(z, a, d, 0.9) == 0.9 * Score(z, a, d, 1.0)
  {
  }

  /** The score of non-negative factors is non-negative. */
  lemma ScoreNonNegative(z: real, a: real, d: real, c: real)
    requires z >= 0.0 && a >= 0.0 && d >= 0.0 && c >= 0.0
    ensures Score(z, a, d, c) >= 0.0
  {
    MulLeftMonotone(0.0, z, a);
    MulLeftMonotone(0.0, z * a, d);
    MulLeftMonotone(0.0, z * a * d, c);
  }

  /** With non-negative other factors, the score grows with the ZIP power. */
  lemma ScoreMonotoneInZip(z1: real, z2: real, a: real, d: real, c: real)
    requires z1 <= z2 && a >= 0.0 && d >= 0.0 && c >= 0.0
    ensures Score(z1, a, d, c) <= Score(z2, a, d, c)
  {
    MulLeftMonotone(z1, z2, a);
    MulLeftMonotone(z1 * a, z2 * a, d);
    MulLeftMonotone(z1 * a * d, z2 * a * d, c);
  }

  /** The device factor of a successful lookup is non-negative when the
      device table holds no negative values. */
  lemma DeviceFactorNonNegative(deviceType: Value, age: real, devices: DeviceTable)
    requires NonNegativeValues(devices)
    requires DeviceFactor(deviceType, age, devices).Ok?
    ensures DeviceFactor(deviceType, age, devices).value >= 0.0
  {
    var d := devices[Lower(deviceType.s)];
    var i := FindBucket(d.buckets, age).value;
    assert FirstMatch(d.buckets, age, i);
    MulLeftMonotone(0.0, d.retailPrice, d.buckets[i].multiplier);
  }

  /** The parts of a successful request that the monotonicity lemmas use. */
  lemma Factors(req: Request, zips: ZipTable, devices: DeviceTable, rt: Runtime)
      returns (age: real, z: real, a: real, d: real, c: real)
    requires Evaluate(req, zips, devices, rt).Ok?
    ensures req.deviceType.Str? && ParsedDeviceAge(req.deviceAge, rt) == Ok(age)
    ensures ToText(req.zipCode, rt) in zips && z == zips[ToText(req.zipCode, rt)] && z != 0.0
    ensures AgeFactor(req.ageRange) == Ok(a) && a > 0.0
    ensures DeviceFactor(req.deviceType, age, devices) == Ok(d)
    ensures c == ChannelFactor(req.deviceType.s) && c > 0.0
    ensures Evaluate(req, zips, devices, rt).value.purchasingPower == Score(z, a, d, c)
  {
    EvaluateSuccess(req, zips, devices, rt);
    age := ParsedDeviceAge(req.deviceAge, rt).value;
    z := ZipPower(req.zipCode, zips, rt).value;
    a := AgeFactor(req.ageRange).value;
    d := DeviceFactor(req.deviceType, age, devices).value;
    c := ChannelFactor(req.deviceType.s);
  }

  /** "mobile" against another device type with the same table entry:
      the mobile score is exactly 0.9 times the other's, and its discount is
      never lower. */
  lemma MobileChannelDiscount(mobile: Request, other: Request, zips: ZipTable, devices: DeviceTable, rt: Runtime)
    requires mobile.deviceType.Str? && Lower(mobile.deviceType.s) == "mobile"
    requires other.deviceType.Str? && Lower(other.deviceType.s) != "mobile"
    requires mobile.ageRange == other.ageRange && mobile.zipCode == other.zipCode
    requires mobile.deviceAge == other.deviceAge
    requires "mobile" in devices && Lower(other.deviceType.s) in devices
    requires devices[Lower(other.deviceType.s)] == devices["mobile"]
    requires Evaluate(other, zips, devices, rt).Ok?
    ensures Evaluate(mobile, zips, devices, rt).Ok?
    ensures Evaluate(mobile, zips, devices, rt).value.purchasingPower ==
              0.9 * Evaluate(other, zips, devices, rt).value.purchasingPower
    ensures Evaluate(other, zips, devices, rt).value.discount <= Evaluate(mobile, zips, devices, rt).value.discount
  {
    var age, z, a, d, c := Factors(other, zips, devices, rt);
    assert DeviceFactor(mobile.deviceType, age, devices) == Ok(d);
    assert |mobile.deviceType.s| == 6;
    EvaluateSuccess(mobile, zips, devices, rt);
    var age', z', a', d', c' := Factors(mobile, zips, devices, rt);
    assert c == 1.0 && c' == 0.9;
    ScoreChannel(z, a, d);
    ChannelNeverLowersDiscount(Score(z, a, d, 1.0));
  }

  /** Scaling any score by 0.9 never lowers the discount: for a non-negative
      score the scaled one is smaller, and for a negative one both saturate
      at 30. */
  lemma ChannelNeverLowersDiscount(s: real)
    ensures CalculateDiscount(s) <= CalculateDiscount(0.9 * s)
  {
    if s >= 0.0 {
      DiscountAntitone(0.9 * s, s);
    }
  }

  /** Raising the ZIP code's purchasing power, with everything else fixed,
      never raises the discount when the tables hold no negative values. */
  lemma ZipPowerNeverRaisesDiscount(req: Request, zips: ZipTable, richer: ZipTable, devices: DeviceTable, rt: Runtime)
    requires NonNegativeValues(devices)
    requires Evaluate(req, zips, devices, rt).Ok? && Evaluate(req, richer, devices, rt).Ok?
    requires zips[ToText(req.zipCode, rt)] <= richer[ToText(req.zipCode, rt)]
    ensures Evaluate(req, richer, devices, rt).value.discount <= Evaluate(req, zips, devices, rt).value.discount
  {
    var age, z, a, d, c := Factors(req, zips, devices, rt);
    var age', z', a', d', c' := Factors(req, richer, devices, rt);
    DeviceFactorNonNegative(req.deviceType, age, devices);
    ScoreMonotoneInZip(z, z', a, d, c);
    DiscountAntitone(Score(z, a, d, c), Score(z', a, d, c));
  }
}
