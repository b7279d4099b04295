/** The bytes that items are stored as, with everything in them, and what they read back as. */
module ItemCodec {
  import opened Basics
  import opened PropStreams

  // ---- items

  datatype Attr =
    | ActionId | UniqueId | Description | Text | Date | Writer | Name | Article | PluralName
    | Weight | Attack | Defense | ExtraDefense | Armor | HitChance | ShootRange
    | Owner | Duration | DecayState | CorpseOwner | Charges | FluidType

  datatype Value = Int(n: int) | Str(s: seq<Byte>)

  datatype Item = Item(id: nat, count: nat, attrs: map<Attr, Value>, children: seq<Item>)

  /** What the loading and saving of an item need to know of its type. A fluid container is fluid, and so is a splash;
      plain are the types without a class of their own; duration is the one new items have. */
  datatype ItemType = ItemType(known: bool, moveable: bool, stackable: bool, fluid: bool, charges: nat,
                               duration: int, container: bool, plain: bool)

  type Types = nat -> ItemType

  predicate IsText(a: Attr) {
    a.Text? || a.Writer? || a.Description? || a.Name? || a.Article? || a.PluralName?
  }

  function IntOf(x: Item, a: Attr): int {
    if a in x.attrs && x.attrs[a].Int? then x.attrs[a].n else 0
  }

  function With(x: Item, a: Attr, v: Value): Item {
    x.(attrs := x.attrs[a := v])
  }

  /** Some item types are replaced when one is made. */
  function MadeId(t: ItemType, id: nat): nat {
    if !t.plain then id
    else if 2210 <= id <= 2212 then id - 3
    else if id == 2215 || id == 2216 then id - 2
    else if 2202 <= id <= 2206 then id - 37
    else id
  }

  /** A new item, of a count if that is not zero. */
  function NewItem(t: ItemType, id: nat, count: nat): Item {
    var x :=
      if t.fluid then Item(id, 1, map[FluidType := Int(count)], [])
      else if t.stackable then
        Item(id, (if count != 0 then count else if t.charges != 0 then t.charges else 1) % 0x100, map[], [])
      else if t.charges != 0 then
        Item(id, 1, map[Charges := Int((if count != 0 then count else t.charges) % 0x1_0000)], [])
      else Item(id, 1, map[], []);
    if t.duration != 0 then With(x, Duration, Int(t.duration)) else x
  }

  function CreateItem(types: Types, id: nat): Option<Item> {
    var t := types(id);
    if !t.known then None
    else Some(NewItem(types(MadeId(t, id)), MadeId(t, id), if t.plain && t.stackable then 1 else 0))
  }

  function SubType(t: ItemType, x: Item): int {
    if t.fluid then IntOf(x, FluidType) % 0x1_0000
    else if t.stackable then x.count
    else if t.charges != 0 then IntOf(x, Charges) % 0x1_0000
    else x.count
  }

  function SetSubType(t: ItemType, x: Item, n: nat): Item {
    if t.fluid then With(x, FluidType, Int(n))
    else if t.stackable then x.(count := n % 0x100)
    else if t.charges != 0 then With(x, Charges, Int(n))
    else x.(count := n % 0x100)
  }

  /** The counters have their widths; no attribute is an empty string; only containers hold items; and a new item of
      the type has the id. */
  ghost predicate WellFormed(types: Types, x: Item) {
    && x.id < 0x1_0000 && x.count < 0x100
    && types(x.id).known && MadeId(types(x.id), x.id) == x.id
    && (forall a :: a in x.attrs ==> AttrOk(a, x.attrs[a]))
    && (x.children != [] ==> types(x.id).container) && |x.children| < 0x1_0000_0000
    && forall c :: c in x.children ==> WellFormed(types, c)
  }

  predicate AttrOk(a: Attr, v: Value) {
    if IsText(a) then v.Str? && v.s != []
    else v.Int? && -0x8000_0000 <= v.n < 0x8000_0000 && (a == DecayState ==> 0 <= v.n <= 2)
  }

  // ---- the attributes in bytes

  const ATTR_CONTAINER_ITEMS := 23

  /** What is stored, in this order: the count or fluid of the types that have one, then attributes. */
  datatype Field = Subtype | Of(attr: Attr)

  function Order(): seq<Field> {
    [Subtype, Of(Charges)] + LaterFields()
  }

  function LaterFields(): seq<Field> {
    [Of(ActionId), Of(Text), Of(Date), Of(Writer), Of(Description), Of(Duration), Of(DecayState), Of(Name), Of(Article),
     Of(PluralName), Of(Weight), Of(Attack), Of(Defense), Of(ExtraDefense), Of(Armor), Of(HitChance), Of(ShootRange)]
  }

  /** The number a field is known by. */
  function Tag(f: Field): Byte {
    match f
    case Subtype => 15
    case Of(ActionId) => 4
    case Of(UniqueId) => 5
    case Of(Text) => 6
    case Of(Description) => 7
    case Of(Duration) => 16
    case Of(DecayState) => 17
    case Of(Date) => 18
    case Of(Writer) => 19
    case Of(Charges) => 22
    case Of(Name) => 24
    case Of(Article) => 25
    case Of(PluralName) => 26
    case Of(Weight) => 27
    case Of(Attack) => 28
    case Of(Defense) => 29
    case Of(ExtraDefense) => 30
    case Of(Armor) => 31
    case Of(HitChance) => 32
    case Of(ShootRange) => 33
    case Of(_) => 0
  }

  /** What is stored for a field, if it is. */
  function Stored(types: Types, x: Item, f: Field): Option<Value> {
    var t := types(x.id);
    match f
    case Subtype => if t.stackable || t.fluid then Some(Int(SubType(t, x))) else None
    case Of(Charges) => if IntOf(x, Charges) % 0x1_0000 != 0 then Some(Int(IntOf(x, Charges) % 0x1_0000)) else None
    case Of(ActionId) =>
      if t.moveable && IntOf(x, ActionId) % 0x1_0000 != 0 then Some(Int(IntOf(x, ActionId) % 0x1_0000)) else None
    case Of(Date) => if IntOf(x, Date) != 0 then Some(Int(IntOf(x, Date))) else None
    case Of(DecayState) => if 1 <= IntOf(x, DecayState) <= 2 then Some(Int(IntOf(x, DecayState))) else None
    case Of(a) => if a in x.attrs then Some(x.attrs[a]) else None
  }

  /** The bytes of a number behind a tag; none for a string. */
  function Width(tag: Byte): nat {
    match tag
    case 12 | 15 | 17 | 32 | 33 => 1
    case 4 | 5 | 22 => 2
    case 16 | 18 | 27 | 28 | 29 | 30 | 31 => 4
    case _ => 0
  }

  predicate HasText(tag: Byte) {
    tag == 6 || tag == 7 || tag == 19 || tag == 24 || tag == 25 || tag == 26
  }

  /** Fields of types with a class of their own, which others pass over. */
  function Passed(tag: Byte): nat {
    match tag
    case 8 => 5
    case 10 => 2
    case 14 => 1
    case 20 | 21 => 4
    case _ => 0
  }

  function WrittenField(types: Types, x: Item, f: Field): seq<Byte> {
    match Stored(types, x, f)
    case None => []
    case Some(Int(n)) => U8(Tag(f)) + Bytes(n, Width(Tag(f)))
    case Some(Str(s)) => U8(Tag(f)) + StringBytes(s)
  }

  function WrittenFields(types: Types, x: Item, fields: seq<Field>): seq<Byte> {
    if fields == [] then [] else WrittenField(types, x, fields[0]) + WrittenFields(types, x, fields[1..])
  }

  /** What stands behind a tag; nothing if the tag is not known or the bytes are not there. */
  function ReadValue(tag: Byte, s: seq<Byte>): (r: Option<(Value, seq<Byte>)>)
    ensures r.Some? ==> |r.value.1| <= |s|
  {
    if HasText(tag) then
      match ReadText(s)
      case None => None
      case Some((t, rest)) => Some((Str(t), rest))
    else if Width(tag) > 0 then
      match ReadNumber(s, Width(tag))
      case None => None
      case Some((n, rest)) => Some((Int(n), rest))
    else if Passed(tag) > 0 && |s| >= Passed(tag) then Some((Int(0), s[Passed(tag)..]))
    else None
  }

  /** An item with what was read. */
  function Assign(types: Types, x: Item, tag: Byte, v: Value): Item {
    match v
    case Str(s) =>
      var a :=
        match tag
        case 6 => Text
        case 7 => Description
        case 19 => Writer
        case 24 => Name
        case 25 => Article
        case _ => PluralName;
      if s == [] then x else With(x, a, v)
    case Int(n) =>
      var unsigned: nat := if 0 <= n < 0x1_0000_0000 then n else 0;
      match tag
      case 12 | 15 | 22 => SetSubType(types(x.id), x, unsigned)
      case 4 => With(x, ActionId, Int(if n < 100 then 100 else n))
      case 5 => if UniqueId in x.attrs then x else With(x, UniqueId, v)
      case 16 => With(x, Duration, Int(if I32(unsigned) < 0 then 0 else I32(unsigned)))
      case 17 => if n != 0 then With(x, DecayState, Int(2)) else x
      case 18 => With(x, Date, Int(I32(unsigned)))
      case 27 => With(x, Weight, Int(I32(unsigned)))
      case 28 => With(x, Attack, Int(I32(unsigned)))
      case 29 => With(x, Defense, Int(I32(unsigned)))
      case 30 => With(x, ExtraDefense, Int(I32(unsigned)))
      case 31 => With(x, Armor, Int(I32(unsigned)))
      case 32 => With(x, HitChance, Int(if unsigned < 0x100 then I8(unsigned) else 0))
      case 33 => With(x, ShootRange, Int(unsigned))
      case _ => x
  }

  datatype Attributes = Bad | Good(item: Item, items: nat, rest: seq<Byte>)

  /** Reads attributes up to their end, or up to the number of items in a container. */
  function ReadAttributes(types: Types, x: Item, s: seq<Byte>): (r: Attributes)
    ensures r.Good? ==> |r.rest| <= |s|
    decreases |s|
  {
    if s == [] || s[0] == 0 then Good(x, 0, if s == [] then [] else s[1..])
    else if s[0] == ATTR_CONTAINER_ITEMS && types(x.id).container then
      match ReadNumber(s[1..], 4)
      case None => Bad
      case Some((n, rest)) => Good(x, n, rest)
    else
      match ReadValue(s[0], s[1..])
      case None => Bad
      case Some((v, rest)) => ReadAttributes(types, Assign(types, x, s[0], v), rest)
  }

  // ---- items in bytes

  function SavedItem(types: Types, x: Item): seq<Byte>
    decreases x, 1
  {
    U16(x.id) + WrittenFields(types, x, Order()) + SavedInside(types, x) + U8(0)
  }

  /** What is in a container. */
  function SavedInside(types: Types, x: Item): seq<Byte>
    decreases x, 0
  {
    if types(x.id).container then U8(ATTR_CONTAINER_ITEMS) + U32(|x.children|) + SavedItems(types, x.children) else []
  }

  /** The items of a container, the last one first. */
  function SavedItems(types: Types, items: seq<Item>): seq<Byte>
    decreases items, 2
  {
    if items == [] then [] else SavedItems(types, items[1..]) + SavedItem(types, items[0])
  }

  /** An item may be of a type that is no more; then nothing is made of it. */
  datatype Loaded = Failed | Done(item: Option<Item>, rest: seq<Byte>)

  function LoadedItem(types: Types, s: seq<Byte>): (r: Loaded)
    ensures r.Done? ==> |r.rest| < |s|
    decreases |s|, 0
  {
    match ReadNumber(s, 2)
    case None => Failed
    case Some((id, rest)) =>
      match CreateItem(types, id)
      case None => Done(None, rest)
      case Some(made) => LoadedContents(types, made, rest)
  }

  /** Reads the attributes of a new item, and the items in it if it is a container. */
  function LoadedContents(types: Types, made: Item, s: seq<Byte>): (r: Loaded)
    ensures r.Done? ==> |r.rest| <= |s|
    decreases |s|, 2
  {
    match ReadAttributes(types, made, s)
    case Bad => Failed
    case Good(item, n, rest) =>
      if types(item.id).container then LoadedContainer(types, item, n, rest) else Done(Some(item), rest)
  }

  /** Reads n items into a container, each before those already there, and the end of the container. */
  function LoadedContainer(types: Types, x: Item, n: nat, s: seq<Byte>): (r: Loaded)
    ensures r.Done? ==> |r.rest| < |s|
    decreases |s|, 1
  {
    if n == 0 then
      if s == [] || s[0] != 0 then Failed else Done(Some(x), s[1..])
    else
      match LoadedItem(types, s)
      case Failed => Failed
      case Done(None, rest) => LoadedContainer(types, x, n - 1, rest)
      case Done(Some(c), rest) => LoadedContainer(types, x.(children := [c] + x.children), n - 1, rest)
  }
}
