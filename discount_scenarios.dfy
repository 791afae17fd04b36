/** Concrete requests against small reference tables: a score far above the
    band, the calibration points, the case-insensitive device lookup, the
    device age "0", a bucket gap and a zero ZIP index. */
module DiscountScenarios {
  import opened Wrappers
  import opened JsValues
  import opened ReferenceData
  import opened Discount
  import opened ErrorHandler

  /** A laptop worth 1000 with buckets "0-1" (x50) and "2-4" (x30). */
  function Laptop(): Device {
    Device(1000.0, [Bucket(Some(0.0), Some(1.0), 50.0), Bucket(Some(2.0), Some(4.0), 30.0)])
  }

  /** A device whose factor is exactly 1 for ages 0 to 10. */
  function Unit(): Device {
    Device(1.0, [Bucket(Some(0.0), Some(10.0), 1.0)])
  }

  /** A runtime whose `parseFloat` reads "0" and "1" and nothing else. */
  function SmallRuntime(): Runtime {
    Runtime(s => if s == "0" then Some(0.0) else if s == "1" then Some(1.0) else None, n => "")
  }

  lemma LowerLaptop()
    ensures Lower("laptop") == "laptop"
    ensures Lower("Laptop") == "laptop"
  {
    LowerOfLowercase("laptop");
  }

  /** Index 100000, bracket 36-45 and a device factor of 50000 give the score
      5,000,000,000, far above the band, so the discount saturates at 5. */
  lemma ScenarioSaturatesAtFive(rt: Runtime)
    ensures Evaluate(Request(Str("36-45"), Str("94103"), Str("laptop"), Num(1.0)),
                     map["94103" := 100000.0], map["laptop" := Laptop()], rt)
            == Ok(Quote(5.0, 5000000000.0, Str("36-45"), Str("94103"), Str("laptop"), 1.0))
  {
    LowerLaptop();
    assert FindBucket(Laptop().buckets, 1.0) == Some(0);
  }

  /** Scores of exactly 30000 and 90000 give 30 and 17.5. */
  lemma ScenarioCalibrationPoints(rt: Runtime)
    ensures Evaluate(Request(Str("36-45"), Str("10001"), Str("laptop"), Num(3.0)),
                     map["10001" := 30000.0], map["laptop" := Unit()], rt)
            == Ok(Quote(30.0, 30000.0, Str("36-45"), Str("10001"), Str("laptop"), 3.0))
    ensures Evaluate(Request(Str("36-45"), Str("10001"), Str("laptop"), Num(3.0)),
                     map["10001" := 90000.0], map["laptop" := Unit()], rt)
            == Ok(Quote(17.5, 90000.0, Str("36-45"), Str("10001"), Str("laptop"), 3.0))
  {
    LowerLaptop();
    assert FindBucket(Unit().buckets, 3.0) == Some(0);
  }

  /** The device type is looked up in lower case. */
  lemma ScenarioCaseInsensitiveDevice(rt: Runtime)
    ensures Evaluate(Request(Str("18-25"), Str("94103"), Str("Laptop"), Num(2.0)),
                     map["94103" := 2.0], map["laptop" := Laptop()], rt)
            == Ok(Quote(CalculateDiscount(42000.0), 42000.0, Str("18-25"), Str("94103"), Str("Laptop"), 2.0))
  {
    LowerLaptop();
    assert FindBucket(Laptop().buckets, 2.0) == Some(1);
  }

  /** The text "0" is a present device age and resolves to the first bucket;
      the number 0 is reported missing. */
  lemma ScenarioZeroAge()
    ensures Evaluate(Request(Str("46+"), Str("94103"), Str("laptop"), Str("0")),
                     map["94103" := 1.0], map["laptop" := Laptop()], SmallRuntime())
            == Ok(Quote(26.875, 45000.0, Str("46+"), Str("94103"), Str("laptop"), 0.0))
    ensures Respond(Request(Str("46+"), Str("94103"), Str("laptop"), Num(0.0)),
                    map["94103" := 1.0], map["laptop" := Laptop()], SmallRuntime())
            == Reply(400, ErrorBody("Device age is required"))
  {
    LowerLaptop();
    assert FindBucket(Laptop().buckets, 0.0) == Some(0);
  }

  /** An age between two buckets fails with "Invalid device age", sent as a
      server error because no status was set. */
  lemma ScenarioBucketGap(rt: Runtime)
    ensures Respond(Request(Str("26-35"), Str("94103"), Str("laptop"), Num(1.5)),
                    map["94103" := 1.0], map["laptop" := Laptop()], rt)
            == Reply(500, ErrorBody("Invalid device age"))
  {
    LowerLaptop();
    assert FindBucket(Laptop().buckets, 1.5) == None;
  }

  /** A ZIP code whose index is 0 is reported as not found. */
  lemma ScenarioZeroZipPower(rt: Runtime)
    ensures Respond(Request(Str("26-35"), Str("00000"), Str("laptop"), Num(1.0)),
                    map["00000" := 0.0], map["laptop" := Laptop()], rt)
            == Reply(404, ErrorBody("ZIP Code '00000' not found"))
  {
    assert "ZIP Code '" + "00000" + "' not found" == "ZIP Code '00000' not found";
  }
}
