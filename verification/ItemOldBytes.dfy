/** What is read of bytes that no item is written as: fields of other types and of older files, and none at all. */
module ItemOldBytes {
  import opened Basics
  import opened PropStreams
  import opened ItemCodec

  /** What a charge, a count or a fluid is set to is what it is then. */
  lemma SubTypeIsSet(t: ItemType, x: Item, n: nat)
    ensures SubType(t, SetSubType(t, x, n)) ==
      if t.fluid || (!t.stackable && t.charges != 0) then n % 0x1_0000 else n % 0x100
    ensures SetSubType(t, x, n).id == x.id && SetSubType(t, x, n).children == x.children
    ensures forall a :: a != FluidType && a != Charges ==>
      && (a in SetSubType(t, x, n).attrs <==> a in x.attrs)
      && (a in x.attrs ==> SetSubType(t, x, n).attrs[a] == x.attrs[a])
    ensures t.fluid || t.stackable ==> IntOf(SetSubType(t, x, n), Charges) == IntOf(x, Charges)
    ensures t.fluid || (!t.stackable && t.charges != 0) ==> SetSubType(t, x, n).count == x.count
  {
  }

  /** One number behind its tag. */
  lemma {:induction false} FieldIsRead(types: Types, x: Item, tag: Byte, bytes: seq<Byte>, rest: seq<Byte>)
    requires !HasText(tag) && |bytes| == Width(tag) > 0
    ensures ReadAttributes(types, x, [tag] + bytes + rest)
         == ReadAttributes(types, Assign(types, x, tag, Int(Number(bytes))), rest)
  {
    var s := [tag] + bytes + rest;
    assert s[0] == tag && s[1..] == bytes + rest;
    assert (bytes + rest)[..|bytes|] == bytes && (bytes + rest)[|bytes|..] == rest;
  }

  /** The charges of runes in older files are read as the count that takes their place. */
  lemma {:induction false} RuneChargesAreRead(types: Types, x: Item, n: Byte, rest: seq<Byte>)
    ensures ReadAttributes(types, x, [12, n] + rest) == ReadAttributes(types, SetSubType(types(x.id), x, n), rest)
    ensures ReadAttributes(types, x, [15, n] + rest) == ReadAttributes(types, SetSubType(types(x.id), x, n), rest)
  {
    assert Number([n]) == n by {
      assert [n][1..] == [];
    }
    assert [12, n] + rest == [12] + [n] + rest && [15, n] + rest == [15] + [n] + rest;
    FieldIsRead(types, x, 12, [n], rest);
    FieldIsRead(types, x, 15, [n], rest);
  }

  /** A unique id is taken once. */
  lemma {:induction false} UniqueIdIsRead(types: Types, x: Item, low: Byte, high: Byte, rest: seq<Byte>)
    ensures ReadAttributes(types, x, [5, low, high] + rest)
         == ReadAttributes(types, if UniqueId in x.attrs then x
                                  else x.(attrs := x.attrs[UniqueId := Int(low + 0x100 * high)]), rest)
  {
    assert Number([low, high]) == low + 0x100 * high by {
      assert [low, high][1..] == [high] && [high][1..] == [];
    }
    assert [5, low, high] + rest == [5] + [low, high] + rest;
    FieldIsRead(types, x, 5, [low, high], rest);
  }

  /** The fields of teleports, depots, doors and beds, with the bytes behind their tags. */
  predicate IsForeign(tag: Byte, width: nat) {
    (tag, width) in {(8, 5), (10, 2), (14, 1), (20, 4), (21, 4)}
  }

  lemma ForeignIs(types: Types, x: Item, tag: Byte, width: nat, s: seq<Byte>)
    requires IsForeign(tag, width)
    ensures tag != 0 && tag != ATTR_CONTAINER_ITEMS && Assign(types, x, tag, Int(0)) == x
    ensures ReadValue(tag, s) == if |s| >= width then Some((Int(0), s[width..])) else None
  {
    assert !HasText(tag) && Width(tag) == 0 && Passed(tag) == width;
  }

  /** Such a field is passed over; without its bytes the item is not read. */
  lemma {:induction false} ForeignIsPassed(types: Types, x: Item, tag: Byte, bytes: seq<Byte>, rest: seq<Byte>)
    requires IsForeign(tag, |bytes|)
    ensures ReadAttributes(types, x, [tag] + bytes + rest) == ReadAttributes(types, x, rest)
    ensures |rest| < |bytes| ==> ReadAttributes(types, x, [tag] + rest) == Bad
  {
    var s := [tag] + bytes + rest;
    assert s[0] == tag && s[1..] == bytes + rest;
    assert (bytes + rest)[|bytes|..] == rest;
    assert ([tag] + rest)[0] == tag && ([tag] + rest)[1..] == rest;
    ForeignIs(types, x, tag, |bytes|, bytes + rest);
    ForeignIs(types, x, tag, |bytes|, rest);
  }

  /** A tag that is not known ends the reading, and so does the tag of contents where there can be none. */
  lemma {:induction false} UnknownIsBad(types: Types, x: Item, tag: Byte, rest: seq<Byte>)
    requires IsUnknown(tag) || (tag == ATTR_CONTAINER_ITEMS && !types(x.id).container)
    ensures ReadAttributes(types, x, [tag] + rest) == Bad
  {
    assert ([tag] + rest)[0] == tag && ([tag] + rest)[1..] == rest;
    NothingBehind(tag, rest);
  }

  predicate IsUnknown(tag: Byte) {
    1 <= tag <= 3 || tag == 9 || tag == 11 || tag == 13 || tag > 33
  }

  lemma NothingBehind(tag: Byte, rest: seq<Byte>)
    requires IsUnknown(tag) || tag == ATTR_CONTAINER_ITEMS
    ensures tag != 0 && ReadValue(tag, rest) == None
  {
    assert !HasText(tag) && Width(tag) == 0 && Passed(tag) == 0;
  }

  /** Items are made of what their type is replaced by, and that is not replaced again; only a few plain types are. */
  lemma MadeOnce(t: ItemType, t': ItemType, id: nat)
    ensures t.plain ==> MadeId(t', MadeId(t, id)) == MadeId(t, id)
    ensures MadeId(t, id) != id <==> t.plain && (2202 <= id <= 2206 || 2210 <= id <= 2212 || 2215 <= id <= 2216)
    ensures MadeId(t, id) <= id
  {
  }
}
