/** A tile's items and flags, whether it lets a monster in on the way to somewhere, and what changes of its items do. */
module TileFlags {
  import opened Basics

  /** What the item table says of a kind of item; damage is that of a field. */
  datatype ItemType = ItemType(
    blockSolid: bool, blockPathFind: bool, moveable: bool, floorChange: bool,
    ground: bool, magicField: bool, damage: nat)

  /** An item on a tile. It was made as a teleport or a field, or not, and stays that when its type changes. */
  datatype TileItem = TileItem(kind: ItemType, teleport: bool, field: bool, unique: bool) {
    predicate Immovable() { !kind.moveable || unique }

    predicate BlocksPath() { kind.blockPathFind && !kind.magicField }
  }

  /** Those of the flags that tell whether a monster may enter. */
  datatype Flags = Flags(
    floorChange: bool, teleport: bool, field: bool,
    blockSolid: bool, immovableBlockSolid: bool, noFieldBlockPath: bool, immovableNoFieldBlockPath: bool)

  /** crowded tells whether the creatures on the tile keep the monster out. */
  datatype Tile = Tile(ground: Option<TileItem>, items: seq<TileItem>, flags: Flags, protection: bool, crowded: bool)

  /** hardy has the kinds of damage the monster is immune to or suffers anyway. */
  datatype Monster = Monster(moveLocked: bool, pushesItems: bool, hardy: set<nat>)

  // ---- may it enter

  function LastField(items: seq<TileItem>): Option<TileItem> {
    if items == [] then None
    else if items[|items|-1].field then Some(items[|items|-1])
    else LastField(items[..|items|-1])
  }

  function FieldItem(t: Tile): Option<TileItem> {
    if !t.flags.field then None
    else if t.ground.Some? && t.ground.value.field then t.ground
    else LastField(t.items)
  }

  predicate Withstands(m: Monster, field: Option<TileItem>) {
    field.Some? && !field.value.kind.blockSolid ==> field.value.kind.damage in m.hardy || m.pushesItems
  }

  /** Whether the tile lets the monster in, test by test. */
  predicate LetsIn(t: Tile, m: Monster) {
    if t.flags.floorChange || t.flags.teleport then false
    else if m.moveLocked || t.ground.None? then false
    else if t.protection || t.crowded then false
    else if t.flags.immovableBlockSolid || t.flags.immovableNoFieldBlockPath then false
    else if (t.flags.blockSolid || t.flags.noFieldBlockPath) && !m.pushesItems then false
    else Withstands(m, FieldItem(t))
  }

  /** Nothing leads away from the tile, and no field on it harms the monster. */
  predicate Inviting(t: Tile, m: Monster) {
    !t.flags.floorChange && !t.flags.teleport && Withstands(m, FieldItem(t))
  }

  /** There is ground, and nothing is in the way. */
  predicate Accessible(t: Tile, m: Monster) {
    && !m.moveLocked && t.ground.Some? && !t.protection && !t.crowded
    && !t.flags.immovableBlockSolid && !t.flags.immovableNoFieldBlockPath
    && (t.flags.blockSolid || t.flags.noFieldBlockPath ==> m.pushesItems)
  }

  // ---- changes

  function SetTileFlags(f: Flags, x: TileItem): Flags {
    Flags(f.floorChange || x.kind.floorChange, f.teleport || x.teleport, f.field || x.field,
          f.blockSolid || x.kind.blockSolid,
          f.immovableBlockSolid || (x.kind.blockSolid && x.Immovable()),
          f.noFieldBlockPath || x.BlocksPath(),
          f.immovableNoFieldBlockPath || (x.BlocksPath() && x.Immovable()))
  }

  /** Floor change, teleport and field go with any item that has them; the others stay while another item has them. */
  function ResetTileFlags(f: Flags, x: TileItem, others: seq<TileItem>): Flags {
    Flags(f.floorChange && !x.kind.floorChange, f.teleport && !x.teleport, f.field && !x.field,
          f.blockSolid && (x.kind.blockSolid ==> exists y :: y in others && y.kind.blockSolid),
          f.immovableBlockSolid
            && (x.kind.blockSolid && x.Immovable() ==> exists y :: y in others && y.kind.blockSolid && y.Immovable()),
          f.noFieldBlockPath && (x.BlocksPath() ==> exists y :: y in others && y.BlocksPath()),
          f.immovableNoFieldBlockPath
            && (x.BlocksPath() && x.Immovable() ==> exists y :: y in others && y.BlocksPath() && y.Immovable()))
  }

  /** Where an item is: it is the ground, or at a place in the list. */
  datatype Place = Ground | At(i: nat)

  predicate Has(t: Tile, place: Place) {
    if place.Ground? then t.ground.Some? else place.i < |t.items|
  }

  function ItemAt(t: Tile, place: Place): TileItem
    requires Has(t, place)
  {
    if place.Ground? then t.ground.value else t.items[place.i]
  }

  function Others(t: Tile, place: Place): seq<TileItem>
    requires Has(t, place)
  {
    if place.Ground? then t.items
    else t.items[..place.i] + t.items[place.i+1..] + if t.ground.Some? then [t.ground.value] else []
  }

  /** The item at a place is another, or another kind of item. */
  function Update(t: Tile, place: Place, x: TileItem): Tile
    requires Has(t, place)
  {
    var flags := SetTileFlags(ResetTileFlags(t.flags, ItemAt(t, place), Others(t, place)), x);
    if place.Ground? then t.(ground := Some(x), flags := flags)
    else t.(items := t.items[place.i := x], flags := flags)
  }

  function Remove(t: Tile, place: Place): Tile
    requires Has(t, place)
  {
    var flags := ResetTileFlags(t.flags, ItemAt(t, place), Others(t, place));
    if place.Ground? then t.(ground := None, flags := flags)
    else t.(items := t.items[..place.i] + t.items[place.i+1..], flags := flags)
  }

  // ---- what the flags stand for

  /** The ground and the items. */
  function AllOn(t: Tile): seq<TileItem> {
    t.items + if t.ground.Some? then [t.ground.value] else []
  }

  /** An item one cannot walk into, or would not look for a way through; and one that cannot be pushed away besides. */
  predicate InTheWay(x: TileItem) { x.kind.blockSolid || (x.kind.blockPathFind && !x.kind.magicField) }

  predicate Fixed(x: TileItem) { x.kind.moveable ==> x.unique }

  /** What the flags of what is in the way ask of an item. */
  datatype Property = BlockSolid | ImmovableBlockSolid | NoFieldBlockPath | ImmovableNoFieldBlockPath

  predicate HasProperty(x: TileItem, prop: Property) {
    match prop
    case BlockSolid => x.kind.blockSolid
    case ImmovableBlockSolid => x.kind.blockSolid && Fixed(x)
    case NoFieldBlockPath => x.kind.blockPathFind && !x.kind.magicField
    case ImmovableNoFieldBlockPath => x.kind.blockPathFind && !x.kind.magicField && Fixed(x)
  }

  predicate FlagFor(f: Flags, prop: Property) {
    match prop
    case BlockSolid => f.blockSolid
    case ImmovableBlockSolid => f.immovableBlockSolid
    case NoFieldBlockPath => f.noFieldBlockPath
    case ImmovableNoFieldBlockPath => f.immovableNoFieldBlockPath
  }

  /** A flag is right: some item on the tile calls for it. */
  ghost predicate FlagOk(t: Tile, prop: Property) {
    FlagFor(t.flags, prop) <==> exists x :: x in AllOn(t) && HasProperty(x, prop)
  }

  ghost predicate BlocksOk(t: Tile) {
    forall prop :: FlagOk(t, prop)
  }

  /** So are those of what leads away, and of fields. */
  ghost predicate LeadsOk(t: Tile) {
    && (t.flags.floorChange <==> exists x :: x in AllOn(t) && x.kind.floorChange)
    && (t.flags.teleport <==> exists x :: x in AllOn(t) && x.teleport)
    && (t.flags.field <==> exists x :: x in AllOn(t) && x.field)
  }

  lemma OnAfterUpdate(t: Tile, place: Place, x: TileItem, y: TileItem)
    requires Has(t, place)
    ensures y in AllOn(Update(t, place, x)) <==> y == x || y in Others(t, place)
    ensures y in AllOn(t) <==> y == ItemAt(t, place) || y in Others(t, place)
    ensures y in AllOn(Remove(t, place)) <==> y in Others(t, place)
  {
    if place.At? {
      var i := place.i;
      assert t.items == t.items[..i] + [t.items[i]] + t.items[i+1..];
      assert t.items[i := x] == t.items[..i] + [x] + t.items[i+1..];
    }
  }

  lemma FlagSet(f: Flags, x: TileItem, prop: Property)
    ensures FlagFor(SetTileFlags(f, x), prop) <==> FlagFor(f, prop) || HasProperty(x, prop)
  {
  }

  lemma FlagReset(f: Flags, x: TileItem, others: seq<TileItem>, prop: Property)
    ensures FlagFor(ResetTileFlags(f, x, others), prop) <==>
      FlagFor(f, prop) && (HasProperty(x, prop) ==> exists y :: y in others && HasProperty(y, prop))
  {
    match prop
    case BlockSolid => assert forall y :: HasProperty(y, prop) <==> y.kind.blockSolid;
    case ImmovableBlockSolid => assert forall y :: HasProperty(y, prop) <==> y.kind.blockSolid && y.Immovable();
    case NoFieldBlockPath => assert forall y :: HasProperty(y, prop) <==> y.BlocksPath();
    case ImmovableNoFieldBlockPath => assert forall y :: HasProperty(y, prop) <==> y.BlocksPath() && y.Immovable();
  }

  lemma FlagStaysOk(t: Tile, place: Place, x: TileItem, prop: Property)
    requires Has(t, place) && FlagOk(t, prop)
    ensures FlagOk(Update(t, place, x), prop) && FlagOk(Remove(t, place), prop)
  {
    var y := ItemAt(t, place);
    FlagReset(t.flags, y, Others(t, place), prop);
    FlagSet(ResetTileFlags(t.flags, y, Others(t, place)), x, prop);
    forall z
      ensures z in AllOn(Update(t, place, x)) <==> z == x || z in Others(t, place)
      ensures z in AllOn(t) <==> z == y || z in Others(t, place)
      ensures z in AllOn(Remove(t, place)) <==> z in Others(t, place)
    {
      OnAfterUpdate(t, place, x, z);
    }
  }

  /** Whatever changes, the flags of what is in the way stay right. */
  lemma BlocksStayOk(t: Tile, place: Place, x: TileItem)
    requires Has(t, place) && BlocksOk(t)
    ensures BlocksOk(Update(t, place, x)) && BlocksOk(Remove(t, place))
  {
    forall prop
      ensures FlagOk(Update(t, place, x), prop) && FlagOk(Remove(t, place), prop)
    {
      FlagStaysOk(t, place, x, prop);
    }
  }

  /** The others do not, exactly when the item that goes is not the only one to lead away, or the only field. */
  lemma LeadsStayOk(t: Tile, place: Place)
    requires Has(t, place) && LeadsOk(t)
    ensures LeadsOk(Remove(t, place)) <==>
      && (ItemAt(t, place).kind.floorChange ==> forall y :: y in Others(t, place) ==> !y.kind.floorChange)
      && (ItemAt(t, place).teleport ==> forall y :: y in Others(t, place) ==> !y.teleport)
      && (ItemAt(t, place).field ==> forall y :: y in Others(t, place) ==> !y.field)
  {
    forall y
      ensures y in AllOn(t) <==> y == ItemAt(t, place) || y in Others(t, place)
      ensures y in AllOn(Remove(t, place)) <==> y in Others(t, place)
    {
      OnAfterUpdate(t, place, ItemAt(t, place), y);
    }
  }

  /** The field on a tile that counts: the ground, or else the one with no other above. */
  ghost predicate Counts(t: Tile, x: TileItem) {
    || t.ground == Some(x)
    || ((t.ground.Some? ==> !t.ground.value.field)
        && exists i :: 0 <= i < |t.items| && t.items[i] == x && forall j :: i < j < |t.items| ==> !t.items[j].field)
  }

  lemma {:induction false} LastFieldCounts(items: seq<TileItem>)
    ensures LastField(items) == None ==> forall x :: x in items ==> !x.field
    ensures LastField(items).Some? ==>
      exists i :: 0 <= i < |items| && items[i] == LastField(items).value && items[i].field
        && forall j :: i < j < |items| ==> !items[j].field
  {
    if items != [] {
      var n := |items| - 1;
      if !items[n].field {
        LastFieldCounts(items[..n]);
        if LastField(items[..n]).Some? {
          var i :| 0 <= i < n && items[..n][i] == LastField(items[..n]).value && items[..n][i].field
            && forall j :: i < j < n ==> !items[..n][j].field;
          assert forall j :: i < j < n ==> items[j] == items[..n][j];
          assert items[i] == items[..n][i];
        } else {
          assert items == items[..n] + [items[n]];
        }
      }
    }
  }

  /** With the right flags, a monster is let in exactly if it can move to where there is ground and nothing keeps it
      out: nothing on the tile leads away, nothing is in the way but what it can push, and the field that counts is
      none it shuns. */
  lemma LetsInByItems(t: Tile, m: Monster)
    requires BlocksOk(t) && LeadsOk(t)
    ensures LetsIn(t, m) <==>
      && !m.moveLocked && t.ground.Some? && !t.protection && !t.crowded
      && (forall x :: x in AllOn(t) ==> !x.kind.floorChange && !x.teleport)
      && (forall x :: x in AllOn(t) && InTheWay(x) ==> !Fixed(x) && m.pushesItems)
      && (forall x :: x in AllOn(t) && x.field && Counts(t, x) ==>
            x.kind.blockSolid || x.kind.damage in m.hardy || m.pushesItems)
  {
    LetsInMeans(t, m);
    LastFieldCounts(t.items);
    assert FlagOk(t, BlockSolid) && FlagOk(t, ImmovableBlockSolid);
    assert FlagOk(t, NoFieldBlockPath) && FlagOk(t, ImmovableNoFieldBlockPath);
    FieldCounts(t);
  }

  /** It is the one the tile asks. */
  lemma FieldCounts(t: Tile)
    requires LeadsOk(t)
    ensures forall x :: x in AllOn(t) && x.field && Counts(t, x) <==> FieldItem(t) == Some(x)
  {
    LastFieldCounts(t.items);
    forall x
      ensures x in AllOn(t) && x.field && Counts(t, x) <==> FieldItem(t) == Some(x)
    {
      if t.flags.field && !(t.ground.Some? && t.ground.value.field) && LastField(t.items).Some? {
        var i :| 0 <= i < |t.items| && t.items[i] == LastField(t.items).value && t.items[i].field
          && forall j :: i < j < |t.items| ==> !t.items[j].field;
        assert t.items[i] in AllOn(t);
      }
    }
  }

  // ---- what a creature that watches the tile takes notice of

  predicate SeesUpdate(oldType: ItemType, newType: ItemType) {
    oldType.blockSolid || oldType.blockPathFind || newType.blockPathFind || newType.blockSolid
  }

  predicate SeesRemoval(kind: ItemType) {
    kind.blockSolid || kind.blockPathFind || kind.ground
  }

  lemma LetsInMeans(t: Tile, m: Monster)
    ensures LetsIn(t, m) <==> Inviting(t, m) && Accessible(t, m)
  {
  }

  /** An update that goes unseen changes the answer exactly if nothing is in the way and the tile begins or ceases
      to be inviting, by what the two items lead to and do. */
  lemma UnseenUpdate(t: Tile, place: Place, x: TileItem, m: Monster)
    requires Has(t, place) && !SeesUpdate(ItemAt(t, place).kind, x.kind)
    ensures var y, t' := ItemAt(t, place), Update(t, place, x);
      && (t'.flags.floorChange <==> (t.flags.floorChange && !y.kind.floorChange) || x.kind.floorChange)
      && (t'.flags.teleport <==> (t.flags.teleport && !y.teleport) || x.teleport)
      && (t'.flags.field <==> (t.flags.field && !y.field) || x.field)
      && ((LetsIn(t', m) <==> LetsIn(t, m)) <==> (Accessible(t, m) ==> (Inviting(t', m) <==> Inviting(t, m))))
  {
    LetsInMeans(t, m);
    LetsInMeans(Update(t, place, x), m);
  }

  /** Likewise for a removal; besides, ground may go that is no longer of a ground type. */
  lemma UnseenRemoval(t: Tile, place: Place, m: Monster)
    requires Has(t, place) && !SeesRemoval(ItemAt(t, place).kind)
    ensures var y, t' := ItemAt(t, place), Remove(t, place);
      && (t'.flags.floorChange <==> t.flags.floorChange && !y.kind.floorChange)
      && (t'.flags.teleport <==> t.flags.teleport && !y.teleport)
      && (t'.flags.field <==> t.flags.field && !y.field)
      && ((LetsIn(t', m) <==> LetsIn(t, m)) <==>
          (Accessible(t, m) ==> if place.Ground? then !Inviting(t, m) else (Inviting(t', m) <==> Inviting(t, m))))
  {
    LetsInMeans(t, m);
    LetsInMeans(Remove(t, place), m);
  }

  const PLAIN := ItemType(false, false, true, false, false, false, 0)
  const GRASS := PLAIN.(moveable := false, ground := true)
  const HOLE := PLAIN.(moveable := false, floorChange := true)
  const NO_FLAGS := Flags(false, false, false, false, false, false, false)

  /** Grass with a stone on it, as it looks in the item table. */
  function Meadow(): Tile {
    Tile(Some(TileItem(GRASS, false, false, false)), [TileItem(PLAIN, false, false, false)], NO_FLAGS, false, false)
  }

  /** The stone turns into a hole, or the hole is taken away again: nobody takes notice, and the answer is another. */
  lemma HoleGoesUnseen(m: Monster)
    requires !m.moveLocked
    ensures var hole := TileItem(HOLE, false, false, false);
      var t' := Update(Meadow(), At(0), hole);
      && !SeesUpdate(ItemAt(Meadow(), At(0)).kind, hole.kind) && LetsIn(Meadow(), m) && !LetsIn(t', m)
      && !SeesRemoval(ItemAt(t', At(0)).kind) && LetsIn(Remove(t', At(0)), m)
  {
    assert LastField(Meadow().items[..0]) == None;
  }
}
