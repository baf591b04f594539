/** The menu tree of the Cosa LCD menu engine: item kinds, null-terminated
    item vectors and the MENU_* definition macros. A menu tree is constant
    data placed in program memory; here every item is an immutable value.
    The mutable objects the modelled items reach are the value cells they
    refer to (a `uint16_t` for enumerations and bitsets, an `int16_t` for
    ranges); an action's handler object is reduced to an identity. */
module MenuItems {

  // Fixed-width integers of the target.
  newtype uint8 = x: int | 0 <= x < 0x100
  newtype uint16 = x: int | 0 <= x < 0x1_0000
  newtype int16 = x: int | -0x8000 <= x < 0x8000

  /** A reference that may be null. */
  datatype Option<+T> = None | Some(value: T)

  // ---------------------------------------------------------------------
  // Type tags

  /** Menu type tag (`Menu::type_t`, a packed one-byte enumeration). */
  datatype TypeTag = ItemTag | ItemListTag | EnumTag | BitsetTag | RangeTag | ActionTag

  /** The byte that stores a tag: ITEM = 0 up to ACTION = 5, in declaration order. */
  function TagCode(t: TypeTag): (b: uint8)
    ensures b < 6
  {
    match t
    case ItemTag => 0
    case ItemListTag => 1
    case EnumTag => 2
    case BitsetTag => 3
    case RangeTag => 4
    case ActionTag => 5
  }

  /** Decodes a stored tag byte; any byte past ACTION is not a tag. */
  function TagOf(b: uint8): (t: Option<TypeTag>)
    ensures t.Some? <==> b < 6
    ensures t.Some? ==> TagCode(t.value) == b
  {
    if b == 0 then Some(ItemTag)
    else if b == 1 then Some(ItemListTag)
    else if b == 2 then Some(EnumTag)
    else if b == 3 then Some(BitsetTag)
    else if b == 4 then Some(RangeTag)
    else if b == 5 then Some(ActionTag)
    else None
  }

  /** Every tag survives being stored as a byte, so the six codes are distinct. */
  lemma TagCodeRoundTrip(t: TypeTag)
    ensures TagOf(TagCode(t)) == Some(t)
  {
  }

  // ---------------------------------------------------------------------
  // Items

  /** Common item header: a type tag and a display name (`item_t`). */
  datatype Header = Header(tag: TypeTag, name: string)

  /** Runtime value cell of an enumeration or bitset (`uint16_t*`). */
  class UInt16Var {
    var value: uint16

    constructor (v: uint16)
      ensures value == v
    {
      value := v;
    }
  }

  /** Runtime value cell of a range (`int16_t*`). */
  class Int16Var {
    var value: int16

    constructor (v: int16)
      ensures value == v
    {
      value := v;
    }
  }

  /** Identity of an action handler object (`Action*`); its `run` is supplied from outside. */
  type ActionRef = nat

  /** A vector of item references; the first null (None) entry terminates it. */
  type Vec = seq<Option<Item>>

  /** A menu item: the header plus the fields of its kind. `enum_t` serves both
      ENUM and BITSET items, which differ only in the tag of their header. */
  datatype Item =
    | Symbol(header: Header)                                        // item_t
    | List(header: Header, list: Vec)                               // item_list_t
    | Enumeration(header: Header, list: Vec, value: UInt16Var)      // enum_t / bitset_t
    | Range(header: Header, low: int16, high: int16, number: Int16Var) // range_t
    | Action(header: Header, obj: ActionRef)                        // action_t

  /** A plain item (`item_t`), as defined by MENU_SYMB. */
  type MenuSymbol = it: Item | it.Symbol? witness Symbol(Header(ItemTag, ""))

  /** An item list (`item_list_t`), as defined by MENU_BEGIN ... MENU_END. */
  type MenuList = it: Item | it.List? witness List(Header(ItemListTag, ""), [None])

  /** An item that MENU_ITEM can add to a list: MENU_ITEM(var) takes `&var.item`,
      the header embedded in a larger struct, so a plain `item_t` cannot be one. */
  type MenuEntry = it: Item | !it.Symbol? witness List(Header(ItemListTag, ""), [None])

  /** The header tag names the variant of the item. */
  predicate WellTagged(it: Item)
  {
    match it
    case Symbol(h) => h.tag == ItemTag
    case List(h, _) => h.tag == ItemListTag
    case Enumeration(h, _, _) => h.tag == EnumTag || h.tag == BitsetTag
    case Range(h, _, _, _) => h.tag == RangeTag
    case Action(h, _) => h.tag == ActionTag
  }

  // ---------------------------------------------------------------------
  // Null-terminated vectors

  /** The length of a vector: the position of its first null entry. */
  function Length(v: Vec): (n: nat)
    requires None in v
    ensures n < |v| && v[n] == None
    ensures forall i :: 0 <= i < n ==> v[i].Some?
  {
    if v[0] == None then 0
    else
      assert None in v[1..] by { assert v == [v[0]] + v[1..]; }
      1 + Length(v[1..])
  }

  /** The length is determined by the first null alone. */
  lemma LengthAtFirstNull(v: Vec, n: nat)
    requires n < |v| && v[n] == None
    requires forall i :: 0 <= i < n ==> v[i].Some?
    ensures Length(v) == n
  {
  }

  /** The items a vector holds: its entries before the terminator. */
  function Entries(v: Vec): (items: seq<Item>)
    requires None in v
    ensures |items| == Length(v)
    ensures forall i :: 0 <= i < |items| ==> v[i] == Some(items[i])
  {
    seq(Length(v), i requires 0 <= i < Length(v) => v[i].value)
  }

  /** The item is one of the entries before the vector's terminator. */
  predicate Contains(v: Vec, x: Item)
  {
    None in v && x in Entries(v)
  }

  /** Membership is an entry equal to the item at a position before the first null. */
  lemma ContainsAt(v: Vec, x: Item)
    requires None in v
    ensures Contains(v, x) <==> exists i :: 0 <= i < Length(v) && v[i] == Some(x)
  {
    if Contains(v, x) {
      var i :| 0 <= i < |Entries(v)| && Entries(v)[i] == x;
      assert v[i] == Some(x);
    }
  }

  /** The initializer `{ &a, &b, ..., 0 }`: the items followed by a null. */
  function Terminate(items: seq<Item>): (v: Vec)
    ensures None in v && Length(v) == |items| && Entries(v) == items
  {
    var v := seq(|items|, i requires 0 <= i < |items| => Some(items[i])) + [None];
    assert v[|items|] == None;
    LengthAtFirstNull(v, |items|);
    v
  }

  /** Whatever follows the terminator is never part of the vector. */
  lemma {:induction false} TailIgnored(v: Vec, w: Vec)
    requires None in v
    ensures None in v + w
    ensures Length(v + w) == Length(v) && Entries(v + w) == Entries(v)
  {
    var n := Length(v);
    assert (v + w)[n] == None;
    LengthAtFirstNull(v + w, n);
  }

  // ---------------------------------------------------------------------
  // The definition macros

  /** MENU_SYMB(var, name): a plain item tagged ITEM. */
  function MenuSymb(name: string): (r: MenuSymbol)
    ensures WellTagged(r) && r.header.tag == ItemTag && r.header.name == name
  {
    Symbol(Header(ItemTag, name))
  }

  /** MENU_BEGIN(var, name), one MENU_ITEM per entry, MENU_END(var):
      an item list tagged ITEM_LIST whose vector holds exactly the entries. */
  function MenuEnd(name: string, entries: seq<MenuEntry>): (r: MenuList)
    ensures WellTagged(r) && r.header.tag == ItemListTag && r.header.name == name
    ensures None in r.list && Length(r.list) == |entries| && Entries(r.list) == entries
  {
    List(Header(ItemListTag, name), Terminate(entries))
  }

  /** MENU_ENUM_BEGIN(var), one MENU_ENUM_ITEM per symbol, MENU_ENUM_END(var):
      the symbol vector of an enumeration or bitset. */
  function MenuEnumList(symbols: seq<MenuSymbol>): (v: Vec)
    ensures None in v && Length(v) == |symbols| && Entries(v) == symbols
  {
    Terminate(symbols)
  }

  /** MENU_ENUM(type, var, name, value): an enumeration tagged ENUM over the
      symbol vector, referring to the value cell. */
  function MenuEnum(symbols: Vec, name: string, value: UInt16Var): (r: MenuEntry)
    ensures WellTagged(r) && r.Enumeration? && r.header.tag == EnumTag && r.header.name == name
    ensures r.list == symbols && r.value == value
  {
    Enumeration(Header(EnumTag, name), symbols, value)
  }

  /** MENU_BITSET(type, var, name, value): the same shape as MENU_ENUM, tagged BITSET. */
  function MenuBitset(symbols: Vec, name: string, value: UInt16Var): (r: MenuEntry)
    ensures WellTagged(r) && r.Enumeration? && r.header.tag == BitsetTag && r.header.name == name
    ensures r.list == symbols && r.value == value
  {
    Enumeration(Header(BitsetTag, name), symbols, value)
  }

  /** ENUM and BITSET items built from the same arguments differ in their tag only. */
  lemma EnumBitsetSameShape(symbols: Vec, name: string, value: UInt16Var)
    ensures var e, b := MenuEnum(symbols, name, value), MenuBitset(symbols, name, value);
      e.Enumeration? && b.Enumeration? &&
      b.header.name == e.header.name && b.list == e.list && b.value == e.value &&
      b.header.tag != e.header.tag
  {
  }

  /** MENU_RANGE(var, name, low, high, value): a range tagged RANGE with constant
      bounds, referring to a separate value cell. */
  function MenuRange(name: string, low: int16, high: int16, value: Int16Var): (r: MenuEntry)
    ensures WellTagged(r) && r.Range? && r.header.tag == RangeTag && r.header.name == name
    ensures r.low == low && r.high == high && r.number == value
  {
    Range(Header(RangeTag, name), low, high, value)
  }

  /** MENU_ACTION(var, name, obj): an action tagged ACTION bound to its handler. */
  function MenuAction(name: string, obj: ActionRef): (r: MenuEntry)
    ensures WellTagged(r) && r.Action? && r.header.tag == ActionTag && r.header.name == name
    ensures r.obj == obj
  {
    Action(Header(ActionTag, name), obj)
  }

  // ---------------------------------------------------------------------
  // Well-formed trees and their value cells

  /** A well-formed tree: every item is well tagged, every vector is
      terminated, and enumerations and bitsets list symbols. */
  ghost predicate WellFormed(it: Item)
    decreases it
  {
    WellTagged(it) &&
    match it
    case List(_, list) =>
      None in list &&
      forall i :: 0 <= i < Length(list) ==> WellFormed(list[i].value)
    case Enumeration(_, list, _) =>
      None in list &&
      forall i :: 0 <= i < Length(list) ==> list[i].value.Symbol? && WellTagged(list[i].value)
    case _ => true
  }

  /** An item list built from well-formed entries is well formed. */
  lemma MenuEndWellFormed(name: string, entries: seq<MenuEntry>)
    requires forall i :: 0 <= i < |entries| ==> WellFormed(entries[i])
    ensures WellFormed(MenuEnd(name, entries))
  {
    var r := MenuEnd(name, entries);
    forall i | 0 <= i < Length(r.list)
      ensures WellFormed(r.list[i].value)
    {
      assert r.list[i].value == Entries(r.list)[i] == entries[i];
    }
  }

  /** An enumeration or bitset over a MENU_ENUM_BEGIN ... END vector of
      MENU_SYMB symbols is well formed. */
  lemma MenuEnumWellFormed(symbols: seq<MenuSymbol>, name: string, value: UInt16Var, bitset: bool)
    requires forall i :: 0 <= i < |symbols| ==> WellTagged(symbols[i])
    ensures WellFormed(if bitset then MenuBitset(MenuEnumList(symbols), name, value)
                       else MenuEnum(MenuEnumList(symbols), name, value))
  {
    var v := MenuEnumList(symbols);
    forall i | 0 <= i < Length(v)
      ensures v[i].value.Symbol? && WellTagged(v[i].value)
    {
      assert v[i].value == Entries(v)[i] == symbols[i];
    }
  }

  /** Entries of a well-formed item list are well formed. */
  lemma EntryWellFormed(l: Item, x: Item)
    requires WellFormed(l) && l.List? && Contains(l.list, x)
    ensures WellFormed(x)
  {
    ContainsAt(l.list, x);
  }

  /** The value cells reachable from an item: those of the enumerations,
      bitsets and ranges in its tree. Symbols and lists hold none; the state of
      an action's handler object is not modelled. */
  ghost function Cells(it: Item): (cs: set<object>)
    ensures forall o :: o in cs ==> o is UInt16Var || o is Int16Var
    decreases it
  {
    match it
    case Symbol(_) => {}
    case Action(_, _) => {}
    case Range(_, _, _, number) => {number}
    case Enumeration(_, _, value) => {value}
    case List(_, list) =>
      if None in list then
        set i, c | 0 <= i < Length(list) && c in Cells(list[i].value) :: c
      else {}
  }

  /** The cells reachable from any of the items. */
  ghost function CellsOfAll(items: seq<Item>): set<object>
  {
    set i, c | 0 <= i < |items| && c in Cells(items[i]) :: c
  }

  /** The cells an item list built by the macros reaches are exactly those of
      its entries: the list itself holds no mutable state. */
  lemma CellsOfMenuEnd(name: string, entries: seq<MenuEntry>)
    ensures Cells(MenuEnd(name, entries)) == CellsOfAll(entries)
  {
    var r := MenuEnd(name, entries);
    var l := r.list;
    var rhs := CellsOfAll(entries);
    assert r == List(r.header, l) && None in l;
    assert forall c :: c in Cells(r) ==> exists i :: 0 <= i < Length(l) && c in Cells(l[i].value);
    forall c | c in Cells(r)
      ensures c in rhs
    {
      var i :| 0 <= i < Length(l) && c in Cells(l[i].value);
      assert l[i].value == Entries(l)[i] == entries[i];
    }
    forall c | c in rhs
      ensures c in Cells(r)
    {
      var i :| 0 <= i < |entries| && c in Cells(entries[i]);
      assert l[i].value == Entries(l)[i] == entries[i];
    }
  }
}
