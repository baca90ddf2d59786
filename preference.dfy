/**
 * The discount toggle and its persisted value under the storage key
 * 'discountEnabled': read once at start-up (`getSavedDiscountEnabled`) and
 * written as `String(checked)` whenever the checkbox changes.
 */
module Preference {
  import opened Base

  const StorageKey: string := "discountEnabled"

  /** A missing key means on; a stored value means on only when it is exactly "true". */
  function Decode(saved: Option<string>): (on: bool)
    ensures saved.None? ==> on
    ensures saved.Some? ==> (on <==> saved.value == "true")
  {
    match saved
    case None => true
    case Some(s) => s == "true"
  }

  /** `String(b)`. */
  function Encode(on: bool): (s: string)
    ensures s == "true" || s == "false"
  {
    if on then "true" else "false"
  }

  /** A stored setting is read back as written. */
  lemma DecodeEncode(on: bool)
    ensures Decode(Some(Encode(on))) == on
  {
  }

  /** Every value `Decode` can produce is stored as a distinct string. */
  lemma EncodeInjective(a: bool, b: bool)
    ensures Encode(a) == Encode(b) <==> a == b
  {
  }

  /** The toggle state of the page and the storage entry it keeps in step. */
  class DiscountToggle {
    var enabled: bool
    var stored: Option<string>

    /** Reloading the page reads the stored value back into the toggle. */
    ghost predicate Valid()
      reads this
    {
      Decode(stored) == enabled
    }

    /** Page load: the toggle takes the stored value, the storage is untouched. */
    constructor (stored: Option<string>)
      ensures Valid()
      ensures this.stored == stored && enabled == Decode(stored)
    {
      this.stored := stored;
      enabled := Decode(stored);
    }

    /** The checkbox's change handler. */
    method OnChange(checked: bool)
      requires Valid()
      modifies this
      ensures Valid()
      ensures enabled == checked && stored == Some(Encode(checked))
    {
      enabled := checked;
      stored := Some(Encode(checked));
    }
  }
}
