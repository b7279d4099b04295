/** Items read back from their bytes: whatever they hold, as they were, up to a normal form. */
module ItemRoundTrip {
  import opened Basics
  import opened PropStreams
  import opened ItemCodec

  /** What is read of a field. */
  function AsRead(types: Types, x: Item, f: Field): Option<Value> {
    match Stored(types, x, f)
    case None => None
    case Some(Int(n)) => Some(Int(Low(n, Width(Tag(f)))))
    case Some(Str(s)) => Some(Str(if |s| > MAX_STRING then [] else s))
  }

  /** The lowest bytes of a number. */
  function Low(n: int, width: nat): nat {
    if width == 1 then n % 0x100 else if width == 2 then n % 0x1_0000 else n % 0x1_0000_0000
  }

  function AfterField(types: Types, item: Item, x: Item, f: Field): Item {
    match AsRead(types, x, f)
    case None => item
    case Some(v) => Assign(types, item, Tag(f), v)
  }

  function AfterFields(types: Types, item: Item, x: Item, fields: seq<Field>): Item
    decreases |fields|
  {
    if fields == [] then item else AfterFields(types, AfterField(types, item, x, fields[0]), x, fields[1..])
  }

  ghost predicate NodeOk(x: Item) {
    forall a :: a in x.attrs ==> AttrOk(a, x.attrs[a])
  }

  /** A field that can be stored has a tag of its own, and its value has the form that goes with it. */
  lemma TagsFit(types: Types, x: Item, f: Field)
    requires NodeOk(x) && f in Order()
    ensures Tag(f) != 0 && Tag(f) != ATTR_CONTAINER_ITEMS
    ensures match Stored(types, x, f)
      case None => true
      case Some(Int(n)) => !HasText(Tag(f)) && (Width(Tag(f)) == 1 || Width(Tag(f)) == 2 || Width(Tag(f)) == 4)
      case Some(Str(s)) => HasText(Tag(f))
  {
    match f
    case Subtype =>
    case Of(a) =>
      assert a in x.attrs ==> AttrOk(a, x.attrs[a]);
      if IsText(a) {
        TextTagFits(types, x, a);
      } else {
        NumberTagFits(types, x, a);
      }
  }

  lemma TextTagFits(types: Types, x: Item, a: Attr)
    requires IsText(a) && (a in x.attrs ==> AttrOk(a, x.attrs[a]))
    ensures Tag(Of(a)) != 0 && Tag(Of(a)) != ATTR_CONTAINER_ITEMS && HasText(Tag(Of(a)))
    ensures Stored(types, x, Of(a)).Some? ==> Stored(types, x, Of(a)).value.Str?
  {
  }

  lemma NumberTagFits(types: Types, x: Item, a: Attr)
    requires Of(a) in Order() && !IsText(a) && (a in x.attrs ==> AttrOk(a, x.attrs[a]))
    ensures Tag(Of(a)) != 0 && Tag(Of(a)) != ATTR_CONTAINER_ITEMS && !HasText(Tag(Of(a)))
    ensures Width(Tag(Of(a))) == 1 || Width(Tag(Of(a))) == 2 || Width(Tag(Of(a))) == 4
    ensures Stored(types, x, Of(a)).Some? ==> Stored(types, x, Of(a)).value.Int?
  {
  }

  lemma {:induction false} FieldReadsBack(types: Types, x: Item, f: Field, item: Item, s: seq<Byte>)
    requires NodeOk(x) && f in Order()
    ensures ReadAttributes(types, item, WrittenField(types, x, f) + s)
        == ReadAttributes(types, AfterField(types, item, x, f), s)
  {
    TagsFit(types, x, f);
    match Stored(types, x, f)
    case None =>
      assert [] + s == s;
    case Some(Int(n)) =>
      NumberFieldReadsBack(types, item, Tag(f), n, s);
    case Some(Str(t)) =>
      TextFieldReadsBack(types, item, Tag(f), t, s);
  }

  lemma {:induction false} NumberFieldReadsBack(types: Types, item: Item, tag: Byte, n: int, s: seq<Byte>)
    requires tag != 0 && tag != ATTR_CONTAINER_ITEMS && !HasText(tag)
    requires Width(tag) == 1 || Width(tag) == 2 || Width(tag) == 4
    ensures ReadAttributes(types, item, U8(tag) + Bytes(n, Width(tag)) + s)
      == ReadAttributes(types, Assign(types, item, tag, Int(Low(n, Width(tag)))), s)
  {
    var w := Width(tag);
    NumberReadsBack(n, w, s);
    assert U8(tag) + Bytes(n, w) + s == U8(tag) + (Bytes(n, w) + s);
    TagReadsBack(types, item, tag, Bytes(n, w) + s);
  }

  lemma {:induction false} TextFieldReadsBack(types: Types, item: Item, tag: Byte, t: seq<Byte>, s: seq<Byte>)
    requires tag != 0 && tag != ATTR_CONTAINER_ITEMS && HasText(tag)
    ensures ReadAttributes(types, item, U8(tag) + StringBytes(t) + s)
      == ReadAttributes(types, Assign(types, item, tag, Str(if |t| > MAX_STRING then [] else t)), s)
  {
    TextAtFront(t, s);
    assert U8(tag) + StringBytes(t) + s == U8(tag) + (StringBytes(t) + s);
    TagReadsBack(types, item, tag, StringBytes(t) + s);
  }

  lemma {:induction false} NumberReadsBack(n: int, width: nat, s: seq<Byte>)
    requires width == 1 || width == 2 || width == 4
    ensures ReadNumber(Bytes(n, width) + s, width) == Some((Low(n, width), s))
  {
    NumberAtFront(n, s);
  }

  lemma {:induction false} TagReadsBack(types: Types, item: Item, tag: Byte, tail: seq<Byte>)
    requires tag != 0 && tag != ATTR_CONTAINER_ITEMS
    ensures var v := ReadValue(tag, tail);
      v.Some? ==>
        ReadAttributes(types, item, U8(tag) + tail)
            == ReadAttributes(types, Assign(types, item, tag, v.value.0), v.value.1)
  {
    var s := U8(tag) + tail;
    assert U8(tag) == [tag];
    assert s[0] == tag && s[1..] == tail;
  }

  lemma {:induction false} FieldsReadBack(types: Types, x: Item, fields: seq<Field>, item: Item, s: seq<Byte>)
    requires NodeOk(x) && forall f :: f in fields ==> f in Order()
    ensures ReadAttributes(types, item, WrittenFields(types, x, fields) + s)
      == ReadAttributes(types, AfterFields(types, item, x, fields), s)
    decreases |fields|
  {
    if fields == [] {
      assert [] + s == s;
    } else {
      var first, others := WrittenField(types, x, fields[0]), WrittenFields(types, x, fields[1..]);
      assert WrittenFields(types, x, fields) + s == first + (others + s);
      FieldReadsBack(types, x, fields[0], item, others + s);
      FieldsReadBack(types, x, fields[1..], AfterField(types, item, x, fields[0]), s);
    }
  }

  // ---- the normal form

  /** The charges that are stored. */
  function ChargesOf(x: Item): nat {
    IntOf(x, Charges) % 0x1_0000
  }

  /** The count of an item once read back: only stackable items keep it, unless they have charges, which
      are then taken for it. */
  function NormalCount(t: ItemType, x: Item): nat {
    if t.fluid then 1
    else if t.stackable then if ChargesOf(x) != 0 then ChargesOf(x) % 0x100 else x.count
    else if t.charges == 0 && ChargesOf(x) != 0 then ChargesOf(x) % 0x100
    else 1
  }

  /** An attribute once read back. Unique ids and owners are not stored, and long texts are not either; an item that
      decays waits to go on; fluids, charges and durations are those of a new item if there are none. */
  function NormalAttr(t: ItemType, x: Item, a: Attr): Option<Value> {
    match a
    case UniqueId | Owner | CorpseOwner => None
    case FluidType =>
      if t.fluid then
        Some(Int(if ChargesOf(x) != 0 then ChargesOf(x) else IntOf(x, FluidType) % 0x1_0000 % 0x100))
      else None
    case Charges =>
      if !t.fluid && !t.stackable && t.charges != 0 then
        Some(Int(if ChargesOf(x) != 0 then ChargesOf(x) else t.charges % 0x1_0000))
      else None
    case ActionId =>
      var n := IntOf(x, ActionId) % 0x1_0000;
      if t.moveable && n != 0 then Some(Int(if n < 100 then 100 else n)) else None
    case Date => if IntOf(x, Date) != 0 then Some(Int(IntOf(x, Date))) else None
    case Duration =>
      if Duration in x.attrs then Some(Int(if IntOf(x, Duration) < 0 then 0 else IntOf(x, Duration)))
      else if t.duration != 0 then Some(Int(t.duration))
      else None
    case DecayState => if 1 <= IntOf(x, DecayState) <= 2 then Some(Int(2)) else None
    case HitChance => if HitChance in x.attrs then Some(Int(I8(IntOf(x, HitChance) % 0x100))) else None
    case ShootRange => if ShootRange in x.attrs then Some(Int(IntOf(x, ShootRange) % 0x100)) else None
    case _ =>
      if a in x.attrs && (x.attrs[a].Str? ==> |x.attrs[a].s| <= MAX_STRING) then Some(x.attrs[a]) else None
  }

  function Normal(types: Types, x: Item): Item
    decreases x, 0
  {
    var t := types(x.id);
    Item(x.id, NormalCount(t, x), map a: Attr | NormalAttr(t, x, a).Some? :: NormalAttr(t, x, a).value,
         NormalAll(types, x.children))
  }

  function NormalAll(types: Types, items: seq<Item>): seq<Item>
    decreases items, 1
  {
    if items == [] then [] else [Normal(types, items[0])] + NormalAll(types, items[1..])
  }

  function Look(attrs: map<Attr, Value>, a: Attr): Option<Value> {
    if a in attrs then Some(attrs[a]) else None
  }

  /** What the stored field of an attribute makes of it. */
  function Kept(t: ItemType, x: Item, a: Attr): Option<Value> {
    if a == Duration && Duration !in x.attrs then None else NormalAttr(t, x, a)
  }

  function Put(x: Item, a: Attr, v: Option<Value>): Item {
    if v.None? then x else With(x, a, v.value)
  }

  lemma FieldIsPut(types: Types, item: Item, x: Item, a: Attr)
    requires NodeOk(x) && (IsText(a) || IsNumber(a))
    ensures AfterField(types, item, x, Of(a)) == Put(item, a, Kept(types(x.id), x, a))
  {
    assert a in x.attrs ==> AttrOk(a, x.attrs[a]);
    if IsText(a) {
      TextFieldIsPut(types, item, x, a);
    } else {
      NumberFieldIsPut(types, item, x, a);
    }
  }

  lemma TextFieldIsPut(types: Types, item: Item, x: Item, a: Attr)
    requires IsText(a) && (a in x.attrs ==> AttrOk(a, x.attrs[a]))
    ensures AfterField(types, item, x, Of(a)) == Put(item, a, Kept(types(x.id), x, a))
  {
  }

  lemma NumberFieldIsPut(types: Types, item: Item, x: Item, a: Attr)
    requires IsNumber(a) && (a in x.attrs ==> AttrOk(a, x.attrs[a]))
    ensures AfterField(types, item, x, Of(a)) == Put(item, a, Kept(types(x.id), x, a))
  {
    if a.ActionId? || a.DecayState? || a.HitChance? || a.ShootRange? {
      NarrowFieldIsPut(types, item, x, a);
    } else {
      WideFieldIsPut(types, item, x, a);
    }
  }

  /** Numbers of one or two bytes. */
  lemma NarrowFieldIsPut(types: Types, item: Item, x: Item, a: Attr)
    requires a.ActionId? || a.DecayState? || a.HitChance? || a.ShootRange?
    requires a in x.attrs ==> AttrOk(a, x.attrs[a])
    ensures AfterField(types, item, x, Of(a)) == Put(item, a, Kept(types(x.id), x, a))
  {
    match a
    case ActionId =>
    case DecayState =>
    case HitChance =>
    case ShootRange =>
  }

  /** Numbers of four bytes. */
  lemma WideFieldIsPut(types: Types, item: Item, x: Item, a: Attr)
    requires IsNumber(a) && !a.ActionId? && !a.DecayState? && !a.HitChance? && !a.ShootRange?
    requires a in x.attrs ==> AttrOk(a, x.attrs[a])
    ensures AfterField(types, item, x, Of(a)) == Put(item, a, Kept(types(x.id), x, a))
  {
    SignedReadBack(IntOf(x, a));
    match a
    case Date =>
    case Duration =>
    case _ =>
  }

  /** Numbers that are stored for themselves. */
  predicate IsNumber(a: Attr) {
    !IsText(a) && !a.UniqueId? && !a.Owner? && !a.CorpseOwner? && !a.Charges? && !a.FluidType?
  }

  /** Fields that are stored for themselves. */
  predicate Later(fields: seq<Field>) {
    forall f :: f in fields ==> f.Of? && (IsText(f.attr) || IsNumber(f.attr))
  }

  lemma {:induction false} FieldsArePut(types: Types, item: Item, x: Item, fields: seq<Field>, a: Attr)
    requires NodeOk(x) && Later(fields)
    ensures var item' := AfterFields(types, item, x, fields);
      && item' == item.(attrs := item'.attrs)
      && Look(item'.attrs, a) ==
          if Of(a) in fields && Kept(types(x.id), x, a).Some? then Kept(types(x.id), x, a) else Look(item.attrs, a)
    decreases |fields|
  {
    if fields != [] {
      assert fields[0] in fields;
      FieldIsPut(types, item, x, fields[0].attr);
      FieldsArePut(types, AfterField(types, item, x, fields[0]), x, fields[1..], a);
      assert Of(a) in fields <==> Of(a) == fields[0] || Of(a) in fields[1..];
    }
  }

  /** An item with its count and charges read back. */
  function Head(t: ItemType, made: Item, x: Item): Item {
    var counted :=
      if t.fluid then With(made, FluidType, Int(IntOf(x, FluidType) % 0x1_0000 % 0x100))
      else if t.stackable then made.(count := x.count % 0x100)
      else made;
    if ChargesOf(x) != 0 then SetSubType(t, counted, ChargesOf(x)) else counted
  }

  lemma HeadReadsBack(types: Types, made: Item, x: Item)
    requires made.id == x.id
    ensures AfterField(types, AfterField(types, made, x, Subtype), x, Of(Charges)) == Head(types(x.id), made, x)
  {
  }

  /** The head is in normal form, but that it may have the duration of a new item. */
  lemma HeadIsNormal(t: ItemType, x: Item, a: Attr)
    requires x.count < 0x100
    ensures var head := Head(t, NewItem(t, x.id, NewCount(t)), x);
      && head == Item(x.id, NormalCount(t, x), head.attrs, [])
      && Look(head.attrs, a) ==
          if a == FluidType || a == Charges then NormalAttr(t, x, a)
          else if a == Duration && t.duration != 0 then Some(Int(t.duration))
          else None
  {
  }

  /** The count that a new item of a type has. */
  function NewCount(t: ItemType): nat {
    if t.plain && t.stackable then 1 else 0
  }

  lemma {:induction false} ItemIsMade(types: Types, x: Item)
    requires WellFormed(types, x)
    ensures CreateItem(types, x.id) == Some(NewItem(types(x.id), x.id, NewCount(types(x.id))))
    ensures NodeOk(x) && x.count < 0x100
  {
  }

  /** The attributes of an item are read back in their normal form. */
  lemma {:induction false} NodeReadsBack(types: Types, x: Item)
    requires NodeOk(x) && x.count < 0x100
    ensures AfterFields(types, NewItem(types(x.id), x.id, NewCount(types(x.id))), x, Order())
        == Normal(types, x).(children := [])
  {
    OrderOfFields(types, NewItem(types(x.id), x.id, NewCount(types(x.id))), x);
    LaterAreNormal(types, x);
  }

  lemma {:induction false} OrderOfFields(types: Types, made: Item, x: Item)
    requires made.id == x.id
    ensures AfterFields(types, made, x, Order()) == AfterFields(types, Head(types(x.id), made, x), x, LaterFields())
  {
    assert Order()[1..] == [Of(Charges)] + LaterFields() && Order()[1..][1..] == LaterFields();
    HeadReadsBack(types, made, x);
  }

  lemma {:induction false} LaterAreNormal(types: Types, x: Item)
    requires NodeOk(x) && x.count < 0x100
    ensures AfterFields(types, Head(types(x.id), NewItem(types(x.id), x.id, NewCount(types(x.id))), x), x,
        LaterFields())
      == Normal(types, x).(children := [])
  {
    AllLater();
    RestIsNormal(types, x, Head(types(x.id), NewItem(types(x.id), x.id, NewCount(types(x.id))), x), LaterFields());
  }

  lemma {:induction false} RestIsNormal(types: Types, x: Item, head: Item, fields: seq<Field>)
    requires NodeOk(x) && x.count < 0x100
    requires head == Head(types(x.id), NewItem(types(x.id), x.id, NewCount(types(x.id))), x)
    requires Later(fields) && forall a :: IsText(a) || IsNumber(a) ==> Of(a) in fields
    ensures AfterFields(types, head, x, fields) == Normal(types, x).(children := [])
  {
    var item := AfterFields(types, head, x, fields);
    HeadIsNormal(types(x.id), x, Charges);
    FieldsArePut(types, head, x, fields, Charges);
    forall a ensures Look(item.attrs, a) == Look(Normal(types, x).attrs, a) {
      AttrIsNormal(types, x, head, fields, a);
    }
    SameLook(item.attrs, Normal(types, x).attrs);
  }

  lemma {:induction false} AttrIsNormal(types: Types, x: Item, head: Item, fields: seq<Field>, a: Attr)
    requires NodeOk(x) && x.count < 0x100
    requires head == Head(types(x.id), NewItem(types(x.id), x.id, NewCount(types(x.id))), x)
    requires Later(fields) && (IsText(a) || IsNumber(a) ==> Of(a) in fields)
    ensures Look(AfterFields(types, head, x, fields).attrs, a) == NormalAttr(types(x.id), x, a)
  {
    HeadIsNormal(types(x.id), x, a);
    FieldsArePut(types, head, x, fields, a);
  }

  lemma SameLook(m: map<Attr, Value>, n: map<Attr, Value>)
    requires forall a :: Look(m, a) == Look(n, a)
    ensures m == n
  {
    forall a ensures a in m <==> a in n {
      assert Look(m, a) == Look(n, a);
    }
    forall a | a in m ensures m[a] == n[a] {
      assert Look(m, a) == Look(n, a);
    }
  }

  lemma AllLater()
    ensures Later(LaterFields())
    ensures forall a :: IsText(a) || IsNumber(a) ==> Of(a) in LaterFields()
  {
    OnlyLater();
    forall a | IsText(a) || IsNumber(a) ensures Of(a) in LaterFields() {
      if IsText(a) {
        TextIsLater(a);
      } else {
        NumberIsLater(a);
      }
    }
  }

  lemma OnlyLater()
    ensures Later(LaterFields())
  {
    forall f | f in LaterFields() ensures f.Of? && (IsText(f.attr) || IsNumber(f.attr)) {
      var i :| 0 <= i < |LaterFields()| && LaterFields()[i] == f;
      EachIsLater(i);
    }
  }

  lemma EachIsLater(i: nat)
    requires i < |LaterFields()|
    ensures var f := LaterFields()[i]; f.Of? && (IsText(f.attr) || IsNumber(f.attr))
  {
  }

  lemma TextIsLater(a: Attr)
    requires IsText(a)
    ensures Of(a) in LaterFields()
  {
    var fields := LaterFields();
    assert fields[1] == Of(Text) && fields[3] == Of(Writer) && fields[4] == Of(Description);
    assert fields[7] == Of(Name) && fields[8] == Of(Article) && fields[9] == Of(PluralName);
  }

  lemma NumberIsLater(a: Attr)
    requires IsNumber(a)
    ensures Of(a) in LaterFields()
  {
    var fields := LaterFields();
    assert fields[0] == Of(ActionId) && fields[2] == Of(Date) && fields[5] == Of(Duration)
        && fields[6] == Of(DecayState);
    assert fields[10] == Of(Weight) && fields[11] == Of(Attack) && fields[12] == Of(Defense)
        && fields[13] == Of(ExtraDefense);
    assert fields[14] == Of(Armor) && fields[15] == Of(HitChance) && fields[16] == Of(ShootRange);
  }

  lemma {:induction false} AttributesReadBack(types: Types, x: Item, tail: seq<Byte>)
    requires NodeOk(x) && x.count < 0x100
    ensures ReadAttributes(types, NewItem(types(x.id), x.id, NewCount(types(x.id))),
                           WrittenFields(types, x, Order()) + tail)
      == ReadAttributes(types, Normal(types, x).(children := []), tail)
  {
    FieldsReadBack(types, x, Order(), NewItem(types(x.id), x.id, NewCount(types(x.id))), tail);
    NodeReadsBack(types, x);
  }

  /** What is behind the id of an item and its attributes. */
  function Tail(types: Types, x: Item, rest: seq<Byte>): seq<Byte> {
    SavedInside(types, x) + (U8(0) + rest)
  }

  lemma {:induction false} IdAtFront(types: Types, x: Item, rest: seq<Byte>)
    requires x.id < 0x1_0000
    ensures ReadNumber(SavedItem(types, x) + rest, 2)
        == Some((x.id, WrittenFields(types, x, Order()) + Tail(types, x, rest)))
  {
    Regrouped(U16(x.id), WrittenFields(types, x, Order()), SavedInside(types, x), U8(0), rest);
    NumberAtFront(x.id, WrittenFields(types, x, Order()) + Tail(types, x, rest));
  }

  lemma Regrouped(a: seq<Byte>, b: seq<Byte>, c: seq<Byte>, d: seq<Byte>, e: seq<Byte>)
    ensures a + b + c + d + e == a + (b + (c + (d + e)))
  {
  }

  lemma {:induction false} IdReadsBack(types: Types, x: Item, rest: seq<Byte>)
    requires WellFormed(types, x)
    ensures LoadedItem(types, SavedItem(types, x) + rest)
      == LoadedContents(types, NewItem(types(x.id), x.id, NewCount(types(x.id))),
                        WrittenFields(types, x, Order()) + Tail(types, x, rest))
  {
    var body := WrittenFields(types, x, Order()) + Tail(types, x, rest);
    IdAtFront(types, x, rest);
    ItemIsMade(types, x);
    ItemFrom(types, SavedItem(types, x) + rest, x.id, NewItem(types(x.id), x.id, NewCount(types(x.id))), body);
  }

  lemma {:induction false} ItemFrom(types: Types, s: seq<Byte>, id: nat, made: Item, body: seq<Byte>)
    requires ReadNumber(s, 2) == Some((id, body)) && CreateItem(types, id) == Some(made)
    ensures LoadedItem(types, s) == LoadedContents(types, made, body)
  {
  }

  lemma ContainerFrom(types: Types, container: Item, n: nat, s: seq<Byte>, c: Item, rest: seq<Byte>)
    requires LoadedItem(types, s) == Done(Some(c), rest) && n > 0
    ensures LoadedContainer(types, container, n, s)
        == LoadedContainer(types, container.(children := [c] + container.children), n - 1, rest)
  {
  }

  lemma {:induction false} ContentsFrom(types: Types, made: Item, s: seq<Byte>, item: Item, n: nat, more: seq<Byte>)
    requires ReadAttributes(types, made, s) == Good(item, n, more)
    ensures LoadedContents(types, made, s) ==
        if types(item.id).container then LoadedContainer(types, item, n, more) else Done(Some(item), more)
  {
  }

  /** An item is read back in its normal form, and what is behind its bytes is left. */
  lemma {:induction false} ItemReadsBack(types: Types, x: Item, rest: seq<Byte>)
    requires WellFormed(types, x)
    ensures LoadedItem(types, SavedItem(types, x) + rest) == Done(Some(Normal(types, x)), rest)
    decreases x, 1
  {
    IdReadsBack(types, x, rest);
    ItemIsMade(types, x);
    ContentsReadBack(types, x, rest);
  }

  lemma {:induction false} ContentsReadBack(types: Types, x: Item, rest: seq<Byte>)
    requires WellFormed(types, x)
    ensures LoadedContents(types, NewItem(types(x.id), x.id, NewCount(types(x.id))),
                           WrittenFields(types, x, Order()) + Tail(types, x, rest))
      == Done(Some(Normal(types, x)), rest)
    decreases x, 0
  {
    var made := NewItem(types(x.id), x.id, NewCount(types(x.id)));
    ItemIsMade(types, x);
    AttributesReadBack(types, x, Tail(types, x, rest));
    if types(x.id).container {
      InsideFollows(types, x, rest);
      FilledIsNormal(types, x, rest);
      ItemsReadBack(types, Normal(types, x).(children := []), x.children, |x.children|,
                    SavedItems(types, x.children) + (U8(0) + rest), 0, U8(0) + rest, Normal(types, x));
      ContentsFrom(types, made, WrittenFields(types, x, Order()) + Tail(types, x, rest),
                   Normal(types, x).(children := []),
                   |x.children|, SavedItems(types, x.children) + (U8(0) + rest));
    } else {
      PlainReadsBack(types, x, Tail(types, x, rest), rest);
      ContentsFrom(types, made, WrittenFields(types, x, Order()) + Tail(types, x, rest), Normal(types, x), 0, rest);
    }
  }

  lemma {:induction false} InsideFollows(types: Types, x: Item, rest: seq<Byte>)
    requires types(x.id).container && |x.children| < 0x1_0000_0000
    ensures ReadAttributes(types, Normal(types, x).(children := []), Tail(types, x, rest))
      == Good(Normal(types, x).(children := []), |x.children|, SavedItems(types, x.children) + (U8(0) + rest))
  {
    var more := SavedItems(types, x.children) + (U8(0) + rest);
    assert Tail(types, x, rest) == U8(ATTR_CONTAINER_ITEMS) + U32(|x.children|) + more;
    InsideReadsBack(types, Normal(types, x).(children := []), |x.children|, Tail(types, x, rest), more);
  }

  lemma {:induction false} PlainReadsBack(types: Types, x: Item, tail: seq<Byte>, rest: seq<Byte>)
    requires !types(x.id).container && x.children == [] && tail == [] + (U8(0) + rest)
    ensures ReadAttributes(types, Normal(types, x).(children := []), tail) == Good(Normal(types, x), 0, rest)
  {
    EndReadsBack(rest);
    assert tail == U8(0) + rest;
  }

  lemma {:induction false} FilledIsNormal(types: Types, x: Item, rest: seq<Byte>)
    ensures var item := Normal(types, x).(children := []);
      Normal(types, x) == item.(children := NormalAll(types, x.children) + item.children)
    ensures LoadedContainer(types, Normal(types, x), 0, U8(0) + rest) == Done(Some(Normal(types, x)), rest)
  {
    EndReadsBack(rest);
    assert NormalAll(types, x.children) + [] == NormalAll(types, x.children);
  }

  lemma EndReadsBack(rest: seq<Byte>)
    ensures U8(0) + rest != [] && (U8(0) + rest)[0] == 0 && (U8(0) + rest)[1..] == rest
  {
  }

  lemma {:induction false} InsideReadsBack(types: Types, item: Item, n: nat, s: seq<Byte>, more: seq<Byte>)
    requires types(item.id).container && n < 0x1_0000_0000 && s == U8(ATTR_CONTAINER_ITEMS) + U32(n) + more
    ensures ReadAttributes(types, item, s) == Good(item, n, more)
  {
    NumberAtFront(n, more);
    assert s[0] == ATTR_CONTAINER_ITEMS && s[1..] == U32(n) + more;
  }

  /** The items of a container are read back before those already in it. */
  lemma {:induction false} ItemsReadBack(types: Types, container: Item, items: seq<Item>, n: nat, bytes: seq<Byte>,
                                         k: nat, s: seq<Byte>, filled: Item)
    requires forall c :: c in items ==> WellFormed(types, c)
    requires n == |items| + k && bytes == SavedItems(types, items) + s
    requires filled == container.(children := NormalAll(types, items) + container.children)
    ensures LoadedContainer(types, container, n, bytes) == LoadedContainer(types, filled, k, s)
    decreases items, 1
  {
    if items == [] {
      assert bytes == s && filled.children == container.children;
    } else {
      var c := items[0];
      var others := container.(children := NormalAll(types, items[1..]) + container.children);
      FirstOf(types, items, container.children);
      assert bytes == SavedItems(types, items[1..]) + (SavedItem(types, c) + s);
      ItemsReadBack(types, container, items[1..], n, bytes, k + 1, SavedItem(types, c) + s, others);
      ItemReadsBack(types, c, s);
      ContainerFrom(types, others, k + 1, SavedItem(types, c) + s, Normal(types, c), s);
    }
  }

  lemma {:induction false} FirstOf(types: Types, items: seq<Item>, children: seq<Item>)
    requires items != []
    ensures SavedItems(types, items) == SavedItems(types, items[1..]) + SavedItem(types, items[0])
    ensures NormalAll(types, items) + children == [Normal(types, items[0])] + (NormalAll(types, items[1..]) + children)
  {
  }

  // ---- storing again

  /** The charges of an item have a place of their own in its type, or are taken for a count or a fluid that can be
      stored again; and it has a duration that can be. */
  predicate SettlesNode(t: ItemType, x: Item) {
    && (|| ChargesOf(x) == 0
        || (t.fluid && ChargesOf(x) < 0x100)
        || (!t.fluid && (t.stackable || t.charges != 0 || ChargesOf(x) % 0x100 == 1)))
    && (Duration in x.attrs || t.duration >= 0)
  }

  predicate Settles(types: Types, x: Item) {
    SettlesNode(types(x.id), x) && forall c :: c in x.children ==> Settles(types, c)
  }

  /** Storing and reading an item a second time changes it again just if it or an item in it does not settle. */
  lemma {:induction false} NormalSettles(types: Types, x: Item)
    requires WellFormed(types, x)
    ensures Normal(types, Normal(types, x)) == Normal(types, x) <==> Settles(types, x)
    decreases x, 0
  {
    var t, y := types(x.id), Normal(types, x);
    NodeSettles(t, x, y);
    AllSettle(types, x.children);
    var z := Normal(types, y);
    SameNormal(t, x, y, z);
  }

  lemma SameNormal(t: ItemType, x: Item, y: Item, z: Item)
    requires forall a :: Look(y.attrs, a) == NormalAttr(t, x, a)
    requires forall a :: Look(z.attrs, a) == NormalAttr(t, y, a)
    ensures z.attrs == y.attrs <==> forall a :: NormalAttr(t, y, a) == NormalAttr(t, x, a)
  {
    if forall a :: NormalAttr(t, y, a) == NormalAttr(t, x, a) {
      forall a ensures Look(z.attrs, a) == Look(y.attrs, a) {
        assert NormalAttr(t, y, a) == NormalAttr(t, x, a);
      }
      SameLook(z.attrs, y.attrs);
    } else {
      var a :| NormalAttr(t, y, a) != NormalAttr(t, x, a);
      assert Look(z.attrs, a) != Look(y.attrs, a);
    }
  }

  lemma {:induction false} AllSettle(types: Types, items: seq<Item>)
    requires forall c :: c in items ==> WellFormed(types, c)
    ensures NormalAll(types, NormalAll(types, items)) == NormalAll(types, items) <==>
        forall c :: c in items ==> Settles(types, c)
    decreases items, 1
  {
    if items != [] {
      var first, others := items[0], items[1..];
      NormalSettles(types, first);
      AllSettle(types, others);
      NormalOfFirst(types, first, others);
      NormalOfFirst(types, Normal(types, first), NormalAll(types, others));
      assert items == [first] + others;
    }
  }

  lemma {:induction false} NormalOfFirst(types: Types, first: Item, others: seq<Item>)
    ensures NormalAll(types, [first] + others) == [Normal(types, first)] + NormalAll(types, others)
  {
    assert ([first] + others)[1..] == others;
  }

  lemma NodeSettles(t: ItemType, x: Item, y: Item)
    requires NodeOk(x) && x.count < 0x100 && y.id == x.id && y.count == NormalCount(t, x)
    requires forall a :: Look(y.attrs, a) == NormalAttr(t, x, a)
    ensures (NormalCount(t, y) == y.count && forall a :: NormalAttr(t, y, a) == NormalAttr(t, x, a)) <==>
        SettlesNode(t, x)
  {
    assert Look(y.attrs, Charges) == NormalAttr(t, x, Charges);
    if SettlesNode(t, x) {
      forall a ensures NormalAttr(t, y, a) == NormalAttr(t, x, a) {
        assert Look(y.attrs, a) == NormalAttr(t, x, a);
        assert a in x.attrs ==> AttrOk(a, x.attrs[a]);
        AttrSettles(t, x, y, a);
      }
    } else {
      assert Look(y.attrs, FluidType) == NormalAttr(t, x, FluidType);
      assert Look(y.attrs, Duration) == NormalAttr(t, x, Duration);
      assert NormalAttr(t, y, FluidType) != NormalAttr(t, x, FluidType)
          || NormalAttr(t, y, Duration) != NormalAttr(t, x, Duration)
        || NormalCount(t, y) != y.count;
    }
  }

  lemma AttrSettles(t: ItemType, x: Item, y: Item, a: Attr)
    requires SettlesNode(t, x) && (a in x.attrs ==> AttrOk(a, x.attrs[a]))
    requires Look(y.attrs, Charges) == NormalAttr(t, x, Charges) && Look(y.attrs, a) == NormalAttr(t, x, a)
    ensures NormalAttr(t, y, a) == NormalAttr(t, x, a)
  {
    if a.FluidType? || a.Charges? {
      ChargesSettle(t, x, y, a);
    } else {
      OthersSettle(t, x, y, a);
    }
  }

  lemma ChargesSettle(t: ItemType, x: Item, y: Item, a: Attr)
    requires SettlesNode(t, x) && (a.FluidType? || a.Charges?)
    requires Look(y.attrs, Charges) == NormalAttr(t, x, Charges) && Look(y.attrs, a) == NormalAttr(t, x, a)
    ensures NormalAttr(t, y, a) == NormalAttr(t, x, a)
  {
  }

  lemma OthersSettle(t: ItemType, x: Item, y: Item, a: Attr)
    requires SettlesNode(t, x) && !a.FluidType? && !a.Charges? && (a in x.attrs ==> AttrOk(a, x.attrs[a]))
    requires Look(y.attrs, a) == NormalAttr(t, x, a)
    ensures NormalAttr(t, y, a) == NormalAttr(t, x, a)
  {
    match a
    case ActionId =>
    case Date =>
    case Duration =>
    case DecayState =>
    case HitChance => SignedTwice(IntOf(x, HitChance));
    case ShootRange =>
    case _ =>
  }

  lemma SignedTwice(n: int)
    ensures I8(I8(n % 0x100) % 0x100) == I8(n % 0x100)
  {
  }
}
