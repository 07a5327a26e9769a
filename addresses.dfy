/** `mapSingleAddress` and `mapMultipleAddress`: address arrays as the
    `{email, name}` objects of the mail/send API, and a reader for those
    objects that shows the mapping keeps every address. */
module Addresses {

  import opened Wrappers
  import opened Json
  import opened Swift
  import Sequences

  /** The `{email, name}` object of one address. */
  function AddressJson(a: Address): Value {
    Object(map["email" := Str(a.email), "name" := OptStr(a.name)])
  }

  /** Reads an address object back; `None` when `v` is not one, that is,
      not an object with exactly the keys `email` and `name`. */
  function ParseAddress(v: Value): Option<Address> {
    if v.Object? && v.fields.Keys == {"email", "name"} && v.fields["email"].Str? then
      match v.fields["name"]
      case Null => Some(Address(v.fields["email"].s, None))
      case Str(n) => Some(Address(v.fields["email"].s, Some(n)))
      case _ => None
    else None
  }

  /** Reads a list of address objects back, in order. */
  function ParseAddresses(items: seq<Value>): Option<seq<Address>>
    decreases |items|
  {
    if |items| == 0 then Some([])
    else
      match (ParseAddresses(items[..|items| - 1]), ParseAddress(items[|items| - 1]))
      case (Some(init), Some(last)) => Some(init + [last])
      case _ => None
  }

  lemma ParseAddressJson(a: Address)
    ensures ParseAddress(AddressJson(a)) == Some(a)
  {
  }

  /** `mapSingleAddress`: the first entry of the array (PHP's `key()` on a
      fresh array), or email and name `null` for an empty array. */
  function MapSingleAddress(addresses: seq<Address>): (r: Value)
    ensures |addresses| > 0 ==> ParseAddress(r) == Some(addresses[0])
    ensures |addresses| == 0 ==> r == Object(map["email" := Null, "name" := Null])
  {
    if |addresses| == 0 then Object(map["email" := Null, "name" := Null])
    else
      ParseAddressJson(addresses[0]);
      AddressJson(addresses[0])
  }

  /** `mapMultipleAddress`: one `{email, name}` object per array entry, in
      array order. */
  function MapMultipleAddress(addresses: seq<Address>): (r: Value)
    ensures r.List? && |r.items| == |addresses|
    ensures forall i | 0 <= i < |addresses| :: ParseAddress(r.items[i]) == Some(addresses[i])
  {
    var items := Sequences.Map(AddressJson, addresses);
    assert forall i | 0 <= i < |addresses| :: ParseAddress(items[i]) == Some(addresses[i]) by {
      forall i | 0 <= i < |addresses| ensures ParseAddress(items[i]) == Some(addresses[i]) {
        ParseAddressJson(addresses[i]);
      }
    }
    List(items)
  }

  /** The list `mapMultipleAddress` builds reads back as the very addresses
      it was built from: no address is lost, added or reordered. */
  lemma {:induction false} MapMultipleAddressRoundTrip(addresses: seq<Address>)
    ensures ParseAddresses(MapMultipleAddress(addresses).items) == Some(addresses)
    decreases |addresses|
  {
    var items := MapMultipleAddress(addresses).items;
    if |addresses| > 0 {
      var init := addresses[..|addresses| - 1];
      MapMultipleAddressRoundTrip(init);
      assert items[..|items| - 1] == MapMultipleAddress(init).items;
      assert init + [addresses[|addresses| - 1]] == addresses;
    }
  }

  /** The single address is the first of the multiple ones. */
  lemma SingleIsFirst(addresses: seq<Address>)
    requires |addresses| > 0
    ensures MapSingleAddress(addresses) == MapMultipleAddress(addresses).items[0]
  {
  }
}
