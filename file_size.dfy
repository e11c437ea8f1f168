/** The integer part of `formatFileSize` (static/main.js:8-14): the `"0 B"`
    case and the choice of unit, `floor(log_1024(bytes))`, looked up in the
    four-entry table `["B", "KB", "MB", "GB"]`. */
module FileSize {
  import opened Wrappers

  const Base: nat := 1024
  const Units: seq<string> := ["B", "KB", "MB", "GB"]

  /** `Math.pow(1024, i)`. */
  function Pow1024(i: nat): (r: nat)
    ensures r >= 1
  {
    if i == 0 then 1 else Base * Pow1024(i - 1)
  }

  /** Higher powers are strictly larger. */
  lemma {:induction false} Pow1024StrictlyIncreasing(i: nat, j: nat)
    requires i < j
    ensures Pow1024(i) < Pow1024(j)
    decreases j
  {
    if i < j - 1 {
      Pow1024StrictlyIncreasing(i, j - 1);
    }
  }

  /** `Math.floor(Math.log(bytes) / Math.log(1024))` computed exactly: the
      power of 1024 that `bytes` reaches without reaching the next one. */
  function UnitIndex(bytes: nat): (i: nat)
    requires bytes >= 1
    ensures Pow1024(i) <= bytes < Pow1024(i + 1)
    decreases bytes
  {
    if bytes < Base then 0
    else
      var j := UnitIndex(bytes / Base);
      assert Base * Pow1024(j) <= Base * (bytes / Base) <= bytes;
      assert bytes < Base * (bytes / Base + 1) <= Base * Pow1024(j + 1);
      j + 1
  }

  /** The unit index is the largest `i` with `1024^i <= bytes`. */
  lemma UnitIndexIsLargest(bytes: nat, i: nat)
    requires bytes >= 1
    ensures Pow1024(i) <= bytes <==> i <= UnitIndex(bytes)
  {
    var u := UnitIndex(bytes);
    if i < u {
      Pow1024StrictlyIncreasing(i, u);
    } else if i > u {
      if i > u + 1 {
        Pow1024StrictlyIncreasing(u + 1, i);
      }
    }
  }

  /** What `formatFileSize` decides before it renders the number:
      either the literal `"0 B"`, or a unit index with the table entry it
      picks (`None` when the index runs past the table, which JavaScript
      renders as `undefined`). */
  datatype SizeText = ZeroBytes | Scaled(index: nat, unit: Option<string>)

  function FormatFileSize(bytes: nat): (r: SizeText)
    ensures r == ZeroBytes <==> bytes == 0
    ensures r.Scaled? ==> Pow1024(r.index) <= bytes < Pow1024(r.index + 1)
    ensures r.Scaled? ==> (r.unit.Some? <==> bytes < Pow1024(|Units|))
    ensures r.Scaled? && r.unit.Some? ==> r.index < |Units| && r.unit.value == Units[r.index]
  {
    if bytes == 0 then ZeroBytes
    else
      var i := UnitIndex(bytes);
      UnitIndexIsLargest(bytes, |Units|);
      Scaled(i, if i < |Units| then Some(Units[i]) else None)
  }

  /** Sizes below 1024 are shown in bytes, 1536 in kilobytes, 1048576 in
      megabytes, and from 1024^4 on the table is overrun. */
  lemma UnitExamples()
    ensures FormatFileSize(0) == ZeroBytes
    ensures FormatFileSize(1023) == Scaled(0, Some("B"))
    ensures FormatFileSize(1536) == Scaled(1, Some("KB"))
    ensures FormatFileSize(1048576) == Scaled(2, Some("MB"))
    ensures FormatFileSize(Pow1024(4)).unit == None
  {
    UnitIndexIsLargest(1023, 1);
    UnitIndexIsLargest(1536, 1);
    UnitIndexIsLargest(1536, 2);
    UnitIndexIsLargest(1048576, 2);
    UnitIndexIsLargest(1048576, 3);
  }
}
