# Cosa LCD menu engine in Dafny

This project models the menu engine of the Cosa Arduino library (`Cosa/Menu.hh`).
A menu is a tree of constant items held in program memory. There are six
kinds of item: plain items (symbols), item lists (sub-menus), enumerations,
bitsets, integer ranges and actions. The tree is defined with the `MENU_*`
macros. A `Menu::Walker` keeps the path from the root list to the list being
shown in an eight-slot stack. It also holds a list cursor, a bitset cursor and
a selection flag, and it reacts to key numbers. A `Menu::KeypadController`
forwards keypad key-down events to a walker.

Layout:

- `menu_items.dfy`, module `MenuItems`. It holds:
  - the target's integer widths (`uint8`, `uint16`, `int16`);
  - the type tag and its byte code;
  - the `Item` datatype, where every variant carries the common `Header`
    (tag and name) plus the fields of its kind;
  - the value cells `UInt16Var` and `Int16Var`, which are classes because the
    items refer to them by pointer and they are the only mutable objects the
    modelled items reach (an action's handler object is reduced to an identity);
  - null-terminated vectors (`Vec`), where `Length` is the index of the first null;
  - the macros as functions;
  - well-formedness of a tree and the cells a tree reaches.
- `menu_walker.dfy`, module `MenuWalker`. It holds:
  - the key alphabet;
  - the action handler's redraw decision;
  - the `Walker` class over an `array` of eight slots;
  - the `KeypadController` class.

Modelling notes:

- `enum_t` doubles as `bitset_t`. So ENUM and BITSET items share one variant,
  `Enumeration`, and differ only in the header tag.
- `MENU_ITEM(var)` expands to `&var.item`. A plain `item_t` has no `item`
  member, so only lists, enumerations, bitsets, ranges and actions can be list
  entries. The macro's comment also names ITEM, but the expansion rules that
  out. The subset type `MenuEntry` follows the code. A hand-written `item_P`
  array can still hold a plain item, and `Walker(lcd, root)` accepts any
  `item_list_P`, so `WellFormed` admits plain items in lists.
- A null pointer is `None`. Stack slots above the top start as null, as in a
  zero-initialised walker.
- `Action::run` is a virtual call into application code. It is the
  `run: (ActionRef, Item) -> bool` the walker is constructed with. The walker
  carries it for the handlers its tree's action items point to.
- `Walker.keys` is a ghost trace of the key numbers the walker received. It is
  instrumentation: only `Walker.OnKeyDown` appends to it, and the controller's
  forwarding is stated through it. A caller that may modify the walker could
  also write the trace, so the trace cannot rule out such a caller.

## Model

| member | source | states |
|---|---|---|
| `MenuItems.TagCode` | cores/cosa/Cosa/Menu.hh:40-47 | every type tag is stored as a byte below 6 |
| `MenuItems.TagOf` | cores/cosa/Cosa/Menu.hh:40-47 | a byte names a tag iff it is below 6, and then it is that tag's code (ITEM=0 … ACTION=5) |
| `MenuItems.TagCodeRoundTrip` | cores/cosa/Cosa/Menu.hh:40-47 | decoding a tag's code gives back the tag, so the six codes are distinct |
| `MenuItems.Length` | cores/cosa/Cosa/Menu.hh:243-245 | a vector's length is the index of its first null: that entry is null and every earlier entry is a non-null item reference |
| `MenuItems.LengthAtFirstNull` | cores/cosa/Cosa/Menu.hh:243-245 | any index holding a null with only non-null entries before it is the length |
| `MenuItems.Entries` | cores/cosa/Cosa/Menu.hh:236-237 | the items of a vector are exactly its non-null entries before the terminator, in order |
| `MenuItems.ContainsAt` | cores/cosa/Cosa/Menu.hh:58 | an item is in a vector iff some entry before the first null refers to it |
| `MenuItems.Terminate` | cores/cosa/Cosa/Menu.hh:226-245 | the initializer `{ &a, …, 0 }` gives a terminated vector whose length is the item count and whose entries are the items |
| `MenuItems.TailIgnored` | cores/cosa/Cosa/Menu.hh:295-297 | entries after the terminator change neither the length nor the entries of a vector |
| `MenuItems.MenuSymb` | cores/cosa/Cosa/Menu.hh:259-264 | MENU_SYMB gives a plain item tagged ITEM with the given name |
| `MenuItems.MenuEnd` | cores/cosa/Cosa/Menu.hh:226-252 | MENU_BEGIN/MENU_ITEM/MENU_END give a list tagged ITEM_LIST whose vector is terminated and holds exactly the entries |
| `MenuItems.MenuEnumList` | cores/cosa/Cosa/Menu.hh:280-297 | MENU_ENUM_BEGIN/ITEM/END give a terminated symbol vector holding exactly the symbols |
| `MenuItems.MenuEnum` | cores/cosa/Cosa/Menu.hh:306-315 | MENU_ENUM gives an enumeration tagged ENUM over the symbol vector, referring to the value cell |
| `MenuItems.MenuBitset` | cores/cosa/Cosa/Menu.hh:324-333 | MENU_BITSET gives the same shape tagged BITSET |
| `MenuItems.EnumBitsetSameShape` | cores/cosa/Cosa/Menu.hh:68-77 | ENUM and BITSET items built from the same arguments agree in name, symbol vector and value cell, and differ in tag |
| `MenuItems.MenuRange` | cores/cosa/Cosa/Menu.hh:343-353 | MENU_RANGE gives a range tagged RANGE with the constant bounds, referring to a separate value cell |
| `MenuItems.MenuAction` | cores/cosa/Cosa/Menu.hh:361-369 | MENU_ACTION gives an action tagged ACTION bound to its handler |
| `MenuItems.MenuEndWellFormed` | cores/cosa/Cosa/Menu.hh:226-252 | a list built by the macros from well-formed entries is well formed: tags match variants and every vector is terminated |
| `MenuItems.MenuEnumWellFormed` | cores/cosa/Cosa/Menu.hh:280-333 | an enumeration or bitset over a macro-built symbol vector is well formed |
| `MenuItems.EntryWellFormed` | cores/cosa/Cosa/Menu.hh:60-64 | an entry of a well-formed item list is well formed |
| `MenuItems.Cells` | cores/cosa/Cosa/Menu.hh:68-86 | the only mutable objects the modelled items reach are the `uint16_t` and `int16_t` value cells |
| `MenuItems.CellsOfMenuEnd` | cores/cosa/Cosa/Menu.hh:243-252 | a macro-built list reaches exactly the cells of its entries and holds no mutable state itself |
| `MenuWalker.KeyCode` | cores/cosa/Cosa/Menu.hh:137-144 | every key is numbered below 6 |
| `MenuWalker.KeyOf` | cores/cosa/Cosa/Menu.hh:137-144 | a key number names a key iff it is below 6, and then it is that key's number (NO_KEY=0 … RIGHT_KEY=5) |
| `MenuWalker.KeyCodeRoundTrip` | cores/cosa/Cosa/Menu.hh:137-144 | decoding a key's number gives back the key |
| `MenuWalker.AfterAction` | cores/cosa/Cosa/Menu.hh:95-102 | the walker renders after an action iff the handler's `run` returns true |
| `MenuWalker.Walker.RunAction` | cores/cosa/Cosa/Menu.hh:95-108 | an action runs exactly when the chosen entry of the current list is an action item; then the redraw decision is its handler's `run` answer; otherwise nothing runs and nothing redraws; the state is unchanged |
| `MenuWalker.PathPrefix` | cores/cosa/Cosa/Menu.hh:112-121 | every prefix of a path from the root is itself a path from the same root |
| `MenuWalker.Walker.constructor` | cores/cosa/Cosa/Menu.hh:151-159 | a new walker has top 0, both cursors 0, nothing selected, the root in slot 0, a valid eight-slot stack, and the handlers' `run` fixed for its lifetime |
| `MenuWalker.Walker.Depth` | cores/cosa/Cosa/Menu.hh:119-121 | the path holds between 1 and STACK_MAX = 8 lists |
| `MenuWalker.Walker.Current` | cores/cosa/Cosa/Menu.hh:158 | `m_stack[m_top]` is a valid access and holds the last list on the path, which is well formed and terminated |
| `MenuWalker.Walker.Descend` | cores/cosa/Cosa/Menu.hh:112-121 | pushing extends the path by an item-list entry of the current list exactly when a slot is free; otherwise nothing changes |
| `MenuWalker.Walker.Ascend` | cores/cosa/Cosa/Menu.hh:112-121 | popping drops the last list exactly when the path is longer than the root; the root never leaves slot 0 |
| `MenuWalker.Walker.OnKeyDown` | cores/cosa/Cosa/Menu.hh:166-172 | any key number is accepted; the stack stays valid (top below 8, a path from the same root); only the walker, its stack and the tree's value cells may change; if an action ran, it is an action entry of the list shown before the key, and the walker redraws iff its handler's `run` returned true |
| `MenuWalker.KeypadController.constructor` | cores/cosa/Cosa/Menu.hh:198-201 | the controller is bound to the given walker |
| `MenuWalker.KeypadController.OnKeyDown` | cores/cosa/Cosa/Menu.hh:208-211 | the key number reaches the walker unchanged (through the walker's key trace), the walker's redraw decision and the action it ran are passed back, and the controller itself does not change |

## Left out

- `MenuWalker.Walker.OnKeyDown`: the per-key navigation and editing transitions are not modelled. They are defined in `Menu.cpp`, which is not part of this model. The body is a nondeterministic stand-in. It may keep the path, ascend one level, descend into any item-list entry of the current list, or run any action entry of the current list. It sets both cursors and the selection flag to arbitrary values. When no action ran, the redraw decision is arbitrary. The contract states only what the header fixes: the stack invariants, the frame, and that a run action's answer decides the redraw.
- `MenuWalker.Walker.OnKeyDown` leaves the value cells unwritten. They are in its frame only because real editing writes them.
- `MenuItems.Cells`: the state of an action's handler object (`Action*`, which keeps the action's own state) and the side effects of its `run` are not modelled. A handler is an identity (`ActionRef`) and `run` is a pure function. So the frames of `MenuWalker.Walker.OnKeyDown` and `MenuWalker.KeypadController.OnKeyDown` leave out handler state that the real `on_key_down` can change when it runs an action.
- `MenuWalker.Walker.RunAction` is the stand-in's step for running an action. The header declares no such member function, and which key runs an action is not modelled.
- `MenuWalker.Walker.Descend` and `MenuWalker.Walker.Ascend` are the path-stack steps that any interpreter keeping "the path to the current position" must take. The header declares no such member functions.
- The list cursor `m_ix` and the bitset cursor `m_bv` are bounded only by their `uint8_t` width. The header does not tie them to the current list's length.
- Rendering is left out: `Walker::begin()`, `operator<<` and the `IOStream m_out` member write to an LCD device, and their bodies are not part of this model. The constructor's `LCD::Device*` argument is dropped for the same reason.
- `Action::run` bodies are application code. They appear only as the `run` oracle.
- Program-memory placement (`PROGMEM`, `str_P`, `item_P`) is not modelled. Items are ordinary immutable values and names are strings.
- `LCDKeypad`, the controller's base class, is left out: its debouncing and key-code acquisition are device I/O.
- `Cosa/DS18B20.cpp`, the 1-Wire thermometer driver, is left out: it is pin I/O and stream printing.
