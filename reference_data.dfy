/** The two read-only reference tables the engine consults: ZIP purchasing
    power and device value. They are inputs of the model; their contents are
    not. */
module ReferenceData {
  import opened Wrappers

  /** ZIP code (exact key) to purchasing-power index. */
  type ZipTable = map<string, real>

  /** One entry of a device's `ageValueMultiplier` object. The label `"min-max"`
      is given already split on `-` and converted with `Number`; a bound that
      is NaN or missing (a label without `-`) is None. */
  datatype Bucket = Bucket(low: Option<real>, high: Option<real>, multiplier: real)

  /** A device entry: retail price and its buckets in key order. */
  datatype Device = Device(retailPrice: real, buckets: seq<Bucket>)

  /** Lower-case device type to device entry. */
  type DeviceTable = map<string, Device>

  /** `deviceAge >= min && deviceAge <= max`: both ends inclusive, and a NaN
      bound makes both comparisons false. */
  predicate Contains(b: Bucket, age: real): (r: bool)
    ensures b.low.None? || b.high.None? ==> !r
    ensures b.low.Some? && b.high.Some? && b.high.value < b.low.value ==> !r
    ensures r ==> age == b.low.value || age == b.high.value || b.low.value < age < b.high.value
  {
    b.low.Some? && b.high.Some? && b.low.value <= age <= b.high.value
  }

  /** Every retail price and every multiplier in the table is non-negative. */
  ghost predicate NonNegativeValues(devices: DeviceTable) {
    forall k :: k in devices ==>
      devices[k].retailPrice >= 0.0 &&
      forall j :: 0 <= j < |devices[k].buckets| ==> devices[k].buckets[j].multiplier >= 0.0
  }
}
