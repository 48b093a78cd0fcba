/** `FileRouteProvider.GetAttributes`: the decomposition of a
    `FileAttributes` word into the enumerated flags it contains. */
module FileAttributes {

  /** .NET's `FileAttributes` values in `Enum.GetValues` order. */
  const FileAttributeValues: seq<bv32> :=
    [0x1, 0x2, 0x4, 0x10, 0x20, 0x40, 0x80, 0x100, 0x200, 0x400, 0x800, 0x1000, 0x2000, 0x4000, 0x8000, 0x20000]

  /** `(attributes & flag) == flag`. */
  predicate Has(attributes: bv32, flag: bv32) {
    attributes & flag == flag
  }

  /** The values among `values` that `attributes` has, in order. */
  function Selected(attributes: bv32, values: seq<bv32>): seq<bv32>
    decreases |values|
  {
    if |values| == 0 then []
    else
      var v := values[|values| - 1];
      Selected(attributes, values[..|values| - 1]) + (if Has(attributes, v) then [v] else [])
  }

  /** `GetAttributes(attributes)`: the enumerated values wholly contained in
      `attributes`, in enumeration order. */
  method GetAttributes(attributes: bv32) returns (result: seq<bv32>)
    ensures result == Selected(attributes, FileAttributeValues)
    ensures forall v :: v in result <==> v in FileAttributeValues && Has(attributes, v)
  {
    result := SelectContained(attributes, FileAttributeValues);
  }

  /** The loop of `GetAttributes` over any list of values: those the word
      contains, in the list's order. */
  method SelectContained(attributes: bv32, values: seq<bv32>) returns (result: seq<bv32>)
    ensures result == Selected(attributes, values)
    ensures forall v :: v in result <==> v in values && Has(attributes, v)
  {
    result := [];
    for i := 0 to |values|
      invariant result == Selected(attributes, values[..i])
    {
      assert values[..i + 1][..i] == values[..i];
      if Has(attributes, values[i]) {
        result := result + [values[i]];
      }
    }
    assert values[..|values|] == values;
    forall v ensures v in result <==> v in values && Has(attributes, v) {
      SelectedMember(attributes, values, v);
    }
  }

  /** A value is selected exactly when it is enumerated and contained. */
  lemma {:induction false} SelectedMember(attributes: bv32, values: seq<bv32>, v: bv32)
    ensures v in Selected(attributes, values) <==> v in values && Has(attributes, v)
    decreases |values|
  {
    if |values| > 0 {
      var n := |values| - 1;
      SelectedMember(attributes, values[..n], v);
      assert values == values[..n] + [values[n]];
    }
  }
}
