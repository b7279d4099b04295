/** Saving items to a stream and loading them from one, step by step. */
module ItemSerialize {
  import opened Basics
  import opened PropStreams
  import opened ItemCodec

  // ---- saving

  /** What has to be known of the attributes of an item to write them: texts are texts, numbers numbers. */
  ghost predicate Typed(x: Item) {
    forall a :: a in x.attrs ==> AttrOk(a, x.attrs[a])
  }

  /** The fields of a list are what has been written. */
  ghost predicate Wrote(types: Types, x: Item, before: seq<Byte>, after: seq<Byte>, fields: seq<Field>) {
    after == before + WrittenFields(types, x, fields)
  }

  lemma {:induction false} WroteMore(types: Types, x: Item, fields: seq<Field>, more: seq<Field>)
    ensures WrittenFields(types, x, fields + more) == WrittenFields(types, x, fields) + WrittenFields(types, x, more)
    decreases |fields|
  {
    if fields == [] {
      assert fields + more == more;
    } else {
      assert (fields + more)[1..] == fields[1..] + more;
      WroteMore(types, x, fields[1..], more);
    }
  }

  lemma WroteOne(types: Types, x: Item, before: seq<Byte>, b0: seq<Byte>, b1: seq<Byte>, fields: seq<Field>, f: Field)
    requires Wrote(types, x, before, b0, fields) && b1 == b0 + WrittenField(types, x, f)
    ensures Wrote(types, x, before, b1, fields + [f])
  {
    WroteMore(types, x, fields, [f]);
    assert WrittenFields(types, x, [f]) == WrittenField(types, x, f) + WrittenFields(types, x, [f][1..]);
    Regroup(before, WrittenFields(types, x, fields), WrittenField(types, x, f));
  }

  lemma Regroup(a: seq<Byte>, b: seq<Byte>, c: seq<Byte>)
    ensures a + b + c == a + (b + c)
  {
  }

  lemma TextWritten(types: Types, x: Item, a: Attr)
    requires IsText(a) && (a in x.attrs ==> x.attrs[a].Str?)
    ensures WrittenField(types, x, Of(a)) == if a in x.attrs then U8(Tag(Of(a))) + StringBytes(x.attrs[a].s) else []
  {
    assert Stored(types, x, Of(a)) == if a in x.attrs then Some(x.attrs[a]) else None;
  }

  /** A tag and a text, if there is one. */
  method PutText(stream: PropWriteStream, x: Item, a: Attr, types: Types)
    requires IsText(a) && (a in x.attrs ==> x.attrs[a].Str?)
    modifies stream
    ensures stream.buffer == old(stream.buffer) + WrittenField(types, x, Of(a))
  {
    TextWritten(types, x, a);
    if a in x.attrs {
      stream.Write8(Tag(Of(a)));
      stream.WriteString(x.attrs[a].s);
      Regroup(old(stream.buffer), U8(Tag(Of(a))), StringBytes(x.attrs[a].s));
    }
  }

  /** A tag and a number of four bytes, if there is one. */
  method PutLong(stream: PropWriteStream, x: Item, a: Attr, types: Types)
    requires a in {Duration, Weight, Attack, Defense, ExtraDefense, Armor} && (a in x.attrs ==> x.attrs[a].Int?)
    modifies stream
    ensures stream.buffer == old(stream.buffer) + WrittenField(types, x, Of(a))
  {
    if a in x.attrs {
      stream.Write8(Tag(Of(a)));
      stream.Write32(IntOf(x, a));
    }
  }

  /** A tag and a number of one byte, if there is one. */
  method PutByte(stream: PropWriteStream, x: Item, a: Attr, types: Types)
    requires a in {HitChance, ShootRange} && (a in x.attrs ==> x.attrs[a].Int?)
    modifies stream
    ensures stream.buffer == old(stream.buffer) + WrittenField(types, x, Of(a))
  {
    if a in x.attrs {
      stream.Write8(Tag(Of(a)));
      stream.Write8(IntOf(x, a));
    }
  }

  method WriteText(stream: PropWriteStream, x: Item, a: Attr, types: Types, ghost before: seq<Byte>,
                   ghost fields: seq<Field>)
    requires Typed(x) && IsText(a) && Wrote(types, x, before, stream.buffer, fields)
    modifies stream
    ensures Wrote(types, x, before, stream.buffer, fields + [Of(a)])
  {
    assert a in x.attrs ==> AttrOk(a, x.attrs[a]);
    PutText(stream, x, a, types);
    WroteOne(types, x, before, old(stream.buffer), stream.buffer, fields, Of(a));
  }

  method WriteLong(stream: PropWriteStream, x: Item, a: Attr, types: Types, ghost before: seq<Byte>,
                   ghost fields: seq<Field>)
    requires Typed(x) && a in {Duration, Weight, Attack, Defense, ExtraDefense, Armor}
    requires Wrote(types, x, before, stream.buffer, fields)
    modifies stream
    ensures Wrote(types, x, before, stream.buffer, fields + [Of(a)])
  {
    assert a in x.attrs ==> AttrOk(a, x.attrs[a]);
    PutLong(stream, x, a, types);
    WroteOne(types, x, before, old(stream.buffer), stream.buffer, fields, Of(a));
  }

  method WriteByte(stream: PropWriteStream, x: Item, a: Attr, types: Types, ghost before: seq<Byte>,
                   ghost fields: seq<Field>)
    requires Typed(x) && a in {HitChance, ShootRange} && Wrote(types, x, before, stream.buffer, fields)
    modifies stream
    ensures Wrote(types, x, before, stream.buffer, fields + [Of(a)])
  {
    assert a in x.attrs ==> AttrOk(a, x.attrs[a]);
    PutByte(stream, x, a, types);
    WroteOne(types, x, before, old(stream.buffer), stream.buffer, fields, Of(a));
  }

  method WriteSubtype(stream: PropWriteStream, x: Item, types: Types, ghost before: seq<Byte>, ghost fields: seq<Field>)
    requires Wrote(types, x, before, stream.buffer, fields)
    modifies stream
    ensures Wrote(types, x, before, stream.buffer, fields + [Subtype])
  {
    var it := types(x.id);
    if it.stackable || it.fluid {
      stream.Write8(15);
      stream.Write8(SubType(it, x));
    }
    assert stream.buffer == old(stream.buffer) + WrittenField(types, x, Subtype);
    WroteOne(types, x, before, old(stream.buffer), stream.buffer, fields, Subtype);
  }

  method WriteCharges(stream: PropWriteStream, x: Item, types: Types, ghost before: seq<Byte>, ghost fields: seq<Field>)
    requires Wrote(types, x, before, stream.buffer, fields)
    modifies stream
    ensures Wrote(types, x, before, stream.buffer, fields + [Of(Charges)])
  {
    var charges := IntOf(x, Charges) % 0x1_0000;
    if charges != 0 {
      stream.Write8(22);
      stream.Write16(charges);
    }
    assert stream.buffer == old(stream.buffer) + WrittenField(types, x, Of(Charges));
    WroteOne(types, x, before, old(stream.buffer), stream.buffer, fields, Of(Charges));
  }

  method WriteActionId(stream: PropWriteStream, x: Item, types: Types, ghost before: seq<Byte>,
                       ghost fields: seq<Field>)
    requires Wrote(types, x, before, stream.buffer, fields)
    modifies stream
    ensures Wrote(types, x, before, stream.buffer, fields + [Of(ActionId)])
  {
    if types(x.id).moveable {
      var actionId := IntOf(x, ActionId) % 0x1_0000;
      if actionId != 0 {
        stream.Write8(4);
        stream.Write16(actionId);
      }
    }
    assert stream.buffer == old(stream.buffer) + WrittenField(types, x, Of(ActionId));
    WroteOne(types, x, before, old(stream.buffer), stream.buffer, fields, Of(ActionId));
  }

  method WriteDate(stream: PropWriteStream, x: Item, types: Types, ghost before: seq<Byte>, ghost fields: seq<Field>)
    requires Wrote(types, x, before, stream.buffer, fields)
    modifies stream
    ensures Wrote(types, x, before, stream.buffer, fields + [Of(Date)])
  {
    var writtenDate := IntOf(x, Date);
    if writtenDate != 0 {
      stream.Write8(18);
      stream.Write32(writtenDate);
    }
    assert stream.buffer == old(stream.buffer) + WrittenField(types, x, Of(Date));
    WroteOne(types, x, before, old(stream.buffer), stream.buffer, fields, Of(Date));
  }

  method WriteDecayState(stream: PropWriteStream, x: Item, types: Types, ghost before: seq<Byte>,
                         ghost fields: seq<Field>)
    requires Wrote(types, x, before, stream.buffer, fields)
    modifies stream
    ensures Wrote(types, x, before, stream.buffer, fields + [Of(DecayState)])
  {
    var decayState := IntOf(x, DecayState);
    if decayState == 1 || decayState == 2 {
      stream.Write8(17);
      stream.Write8(decayState);
    }
    assert stream.buffer == old(stream.buffer) + WrittenField(types, x, Of(DecayState));
    WroteOne(types, x, before, old(stream.buffer), stream.buffer, fields, Of(DecayState));
  }

  /** Writes what comes first: counts, and a text with its date. */
  method SerializeFirst(stream: PropWriteStream, x: Item, types: Types)
    requires Typed(x)
    modifies stream
    ensures Wrote(types, x, old(stream.buffer), stream.buffer, Order()[..5])
  {
    ghost var b := stream.buffer;
    ghost var done: seq<Field> := [];
    WriteSubtype(stream, x, types, b, done);
    done := done + [Subtype];
    WriteCharges(stream, x, types, b, done);
    done := done + [Of(Charges)];
    WriteActionId(stream, x, types, b, done);
    done := done + [Of(ActionId)];
    WriteText(stream, x, Text, types, b, done);
    done := done + [Of(Text)];
    WriteDate(stream, x, types, b, done);
    done := done + [Of(Date)];
    assert done == Order()[..5];
  }

  /** Writes who wrote the text, a description, and how the item decays. */
  method SerializeNext(stream: PropWriteStream, x: Item, types: Types)
    requires Typed(x)
    modifies stream
    ensures Wrote(types, x, old(stream.buffer), stream.buffer, Order()[5..9])
  {
    ghost var b := stream.buffer;
    ghost var done: seq<Field> := [];
    WriteText(stream, x, Writer, types, b, done);
    done := done + [Of(Writer)];
    WriteText(stream, x, Description, types, b, done);
    done := done + [Of(Description)];
    WriteLong(stream, x, Duration, types, b, done);
    done := done + [Of(Duration)];
    WriteDecayState(stream, x, types, b, done);
    done := done + [Of(DecayState)];
    assert done == Order()[5..9];
  }

  /** Writes what comes then: names, and what fighters care about. */
  method SerializeThen(stream: PropWriteStream, x: Item, types: Types)
    requires Typed(x)
    modifies stream
    ensures Wrote(types, x, old(stream.buffer), stream.buffer, Order()[9..])
  {
    ghost var b := stream.buffer;
    ghost var done: seq<Field> := [];
    WriteText(stream, x, Name, types, b, done);
    done := done + [Of(Name)];
    WriteText(stream, x, Article, types, b, done);
    done := done + [Of(Article)];
    WriteText(stream, x, PluralName, types, b, done);
    done := done + [Of(PluralName)];
    WriteLong(stream, x, Weight, types, b, done);
    done := done + [Of(Weight)];
    WriteLong(stream, x, Attack, types, b, done);
    done := done + [Of(Attack)];
    WriteLong(stream, x, Defense, types, b, done);
    done := done + [Of(Defense)];
    WriteLong(stream, x, ExtraDefense, types, b, done);
    done := done + [Of(ExtraDefense)];
    WriteLong(stream, x, Armor, types, b, done);
    done := done + [Of(Armor)];
    WriteByte(stream, x, HitChance, types, b, done);
    done := done + [Of(HitChance)];
    WriteByte(stream, x, ShootRange, types, b, done);
    done := done + [Of(ShootRange)];
    assert done == Order()[9..];
  }

  /** Writes the attributes of an item, one after the other. */
  method SerializeAttr(stream: PropWriteStream, x: Item, types: Types)
    requires Typed(x)
    modifies stream
    ensures Wrote(types, x, old(stream.buffer), stream.buffer, Order())
  {
    ghost var b := stream.buffer;
    SerializeFirst(stream, x, types);
    ghost var b1 := stream.buffer;
    SerializeNext(stream, x, types);
    WroteBoth(types, x, b, b1, stream.buffer, Order()[..5], Order()[5..9]);
    assert Order()[..5] + Order()[5..9] == Order()[..9];
    ghost var b2 := stream.buffer;
    SerializeThen(stream, x, types);
    WroteBoth(types, x, b, b2, stream.buffer, Order()[..9], Order()[9..]);
    assert Order()[..9] + Order()[9..] == Order();
  }

  lemma WroteBoth(types: Types, x: Item, b: seq<Byte>, b1: seq<Byte>, b2: seq<Byte>, s: seq<Field>, t: seq<Field>)
    requires Typed(x) && Wrote(types, x, b, b1, s) && Wrote(types, x, b1, b2, t)
    ensures Wrote(types, x, b, b2, s + t)
  {
    WroteMore(types, x, s, t);
    Regroup(b, WrittenFields(types, x, s), WrittenFields(types, x, t));
  }

  /** Writes an item with everything in it. */
  method SaveItem(stream: PropWriteStream, x: Item, types: Types)
    requires WellFormed(types, x)
    modifies stream
    ensures stream.buffer == old(stream.buffer) + SavedItem(types, x)
    decreases x, 1
  {
    ghost var before := stream.buffer;
    stream.Write16(x.id);
    SerializeAttr(stream, x, types);
    ghost var inside := SavedInside(types, x);
    if types(x.id).container {
      SaveInside(stream, x, types);
    } else {
      assert stream.buffer + inside == stream.buffer;
    }
    assert stream.buffer == before + U16(x.id) + WrittenFields(types, x, Order()) + inside;
    stream.Write8(0);
    Join(before, U16(x.id), WrittenFields(types, x, Order()), inside, U8(0));
  }

  lemma Join(b: seq<Byte>, a: seq<Byte>, c: seq<Byte>, d: seq<Byte>, e: seq<Byte>)
    ensures b + a + c + d + e == b + (a + c + d + e)
  {
  }

  lemma OneMore(types: Types, items: seq<Item>, i: nat)
    requires i < |items|
    ensures SavedItems(types, items[i..]) == SavedItems(types, items[i+1..]) + SavedItem(types, items[i])
  {
    assert items[i..][0] == items[i] && items[i..][1..] == items[i+1..];
  }

  /** Writes the items of a container, the last one first. */
  method SaveInside(stream: PropWriteStream, x: Item, types: Types)
    requires WellFormed(types, x) && types(x.id).container
    modifies stream
    ensures stream.buffer == old(stream.buffer) + SavedInside(types, x)
    decreases x, 0
  {
    stream.Write8(ATTR_CONTAINER_ITEMS);
    stream.Write32(|x.children|);
    ghost var before := stream.buffer;
    var i := |x.children|;
    while i > 0
      invariant 0 <= i <= |x.children|
      invariant stream.buffer == before + SavedItems(types, x.children[i..])
    {
      i := i - 1;
      OneMore(types, x.children, i);
      Regroup(before, SavedItems(types, x.children[i+1..]), SavedItem(types, x.children[i]));
      SaveItem(stream, x.children[i], types);
    }
    assert x.children[0..] == x.children;
    Regroup(old(stream.buffer), U8(ATTR_CONTAINER_ITEMS), U32(|x.children|));
    Regroup(old(stream.buffer), U8(ATTR_CONTAINER_ITEMS) + U32(|x.children|), SavedItems(types, x.children));
  }

  // ---- loading

  /** Reads what stands behind a tag into an item. */
  method ReadAttr(stream: PropStream, x: Item, tag: Byte, types: Types) returns (x': Option<Item>)
    requires stream.Valid()
    modifies stream
    ensures stream.Valid()
    ensures x'.Some? == ReadValue(tag, old(stream.Rest())).Some?
    ensures x'.Some? ==>
      var (v, rest) := ReadValue(tag, old(stream.Rest())).value;
      x'.value == Assign(types, x, tag, v) && stream.Rest() == rest
  {
    x' := None;
    if HasText(tag) {
      var text := stream.ReadString();
      if text.Some? {
        x' := Some(Assign(types, x, tag, Str(text.value)));
      }
    } else if Width(tag) > 0 {
      var n := stream.Read(Width(tag));
      if n.Some? {
        x' := Some(Assign(types, x, tag, Int(n.value)));
      }
    } else if Passed(tag) > 0 {
      var ok := stream.Skip(Passed(tag));
      if ok {
        x' := Some(x);
      }
    }
  }

  /** What is read of attributes when the first tag, if there is one, has been read. */
  function ReadTagged(types: Types, x: Item, tag: Option<nat>, rest: seq<Byte>): Attributes {
    if tag.None? || tag.value == 0 || tag.value >= 0x100 then Good(x, 0, rest)
    else if tag.value == ATTR_CONTAINER_ITEMS && types(x.id).container then
      match ReadNumber(rest, 4)
      case None => Bad
      case Some((n, more)) => Good(x, n, more)
    else
      match ReadValue(tag.value, rest)
      case None => Bad
      case Some((v, more)) => ReadAttributes(types, Assign(types, x, tag.value, v), more)
  }

  lemma {:induction false} TagIsFirst(types: Types, x: Item, s: seq<Byte>)
    ensures s == [] ==> ReadNumber(s, 1) == None && ReadAttributes(types, x, s) == ReadTagged(types, x, None, [])
    ensures s != [] ==>
      ReadNumber(s, 1) == Some((s[0], s[1..]))
          && ReadAttributes(types, x, s) == ReadTagged(types, x, Some(s[0]), s[1..])
  {
    if s != [] {
      assert s[..1] == [s[0]] && Number([s[0]]) == s[0];
    }
  }

  /** Reads attributes up to their end; what a container says of the number of its items is left in items. */
  method UnserializeAttr(stream: PropStream, x: Item, types: Types) returns (r: Option<Item>, items: nat)
    requires stream.Valid()
    modifies stream
    ensures stream.Valid()
    ensures r.Some? == ReadAttributes(types, x, old(stream.Rest())).Good?
    ensures r.Some? ==> ReadAttributes(types, x, old(stream.Rest())) == Good(r.value, items, stream.Rest())
  {
    var item := x;
    items := 0;
    ghost var all := ReadAttributes(types, x, stream.Rest());
    TagIsFirst(types, x, stream.Rest());
    var tag := stream.Read(1);
    while tag.Some? && tag.value != 0
      invariant stream.Valid() && (tag.Some? ==> tag.value < 0x100)
      invariant all == ReadTagged(types, item, tag, stream.Rest())
      decreases |stream.Rest()| + if tag.Some? then 1 else 0
    {
      if tag.value == ATTR_CONTAINER_ITEMS && types(item.id).container {
        var n := stream.Read(4);
        if n.None? {
          return None, 0;
        }
        return Some(item), n.value;
      }
      var next := ReadAttr(stream, item, tag.value, types);
      if next.None? {
        return None, 0;
      }
      item := next.value;
      TagIsFirst(types, item, stream.Rest());
      tag := stream.Read(1);
    }
    r := Some(item);
  }

  /** Reads an item with everything in it; there is none if its type is no more. */
  method LoadItem(stream: PropStream, types: Types) returns (ok: bool, item: Option<Item>)
    requires stream.Valid()
    modifies stream
    ensures stream.Valid() && ok == LoadedItem(types, old(stream.Rest())).Done?
    ensures ok ==> LoadedItem(types, old(stream.Rest())) == Done(item, stream.Rest())
    decreases |stream.Rest()|, 0
  {
    item := None;
    var id := stream.Read(2);
    if id.None? {
      return false, None;
    }
    var made := CreateItem(types, id.value);
    if made.None? {
      return true, None;
    }
    var items;
    item, items := UnserializeAttr(stream, made.value, types);
    if item.None? {
      return false, None;
    }
    ok := true;
    if types(item.value.id).container {
      ok, item := LoadContainer(stream, item.value, items, types);
    }
  }

  /** Reads one of the n items that are left of a container; all is what reading them all comes to. */
  method LoadNext(stream: PropStream, x: Item, n: nat, types: Types, ghost all: Loaded) returns (ok: bool, c: Item)
    requires stream.Valid() && n > 0 && all == LoadedContainer(types, x, n, stream.Rest())
    modifies stream
    ensures stream.Valid() && (ok ==> |stream.Rest()| <= |old(stream.Rest())|)
    ensures if ok then all == LoadedContainer(types, c, n - 1, stream.Rest()) else !all.Done?
    decreases |stream.Rest()|, 1
  {
    c := x;
    var item;
    ok, item := LoadItem(stream, types);
    if ok && item.Some? {
      c := c.(children := [item.value] + c.children);
    }
  }

  /** Reads the items of a container, and its end. */
  method LoadContainer(stream: PropStream, x: Item, count: nat, types: Types)
    returns (ok: bool, container: Option<Item>)
    requires stream.Valid()
    modifies stream
    ensures stream.Valid() && ok == LoadedContainer(types, x, count, old(stream.Rest())).Done?
    ensures ok ==> LoadedContainer(types, x, count, old(stream.Rest())) == Done(container, stream.Rest())
    decreases |stream.Rest()|, 2
  {
    var c, serializationCount := x, count;
    ghost var all := LoadedContainer(types, x, count, stream.Rest());
    while serializationCount > 0
      invariant stream.Valid() && |stream.Rest()| <= |old(stream.Rest())|
      invariant all == LoadedContainer(types, c, serializationCount, stream.Rest())
    {
      var loaded;
      loaded, c := LoadNext(stream, c, serializationCount, types, all);
      if !loaded {
        return false, None;
      }
      serializationCount := serializationCount - 1;
    }
    var endAttr := stream.Read(1);
    if endAttr.None? || endAttr.value != 0 {
      return false, None;
    }
    return true, Some(c);
  }
}
