/** The menu walker and its keypad adapter. The walker keeps the path from the
    root item list to the list being shown in a fixed stack of eight slots,
    together with a list cursor, a bitset cursor and a selection flag; key
    events change that state in place. */
module MenuWalker {
  import opened MenuItems

  /** Number of slots in the walker's path stack. */
  const STACK_MAX: uint8 := 8

  // ---------------------------------------------------------------------
  // Key alphabet

  /** The walker's key numbers (the same map as the LCD keypad's). */
  datatype Key = NoKey | SelectKey | LeftKey | DownKey | UpKey | RightKey

  /** The key number of a key: NO_KEY = 0, SELECT_KEY = 1, LEFT_KEY = 2,
      DOWN_KEY = 3, UP_KEY = 4, RIGHT_KEY = 5. */
  function KeyCode(k: Key): (nr: uint8)
    ensures nr < 6
  {
    match k
    case NoKey => 0
    case SelectKey => 1
    case LeftKey => 2
    case DownKey => 3
    case UpKey => 4
    case RightKey => 5
  }

  /** The key a key number names; numbers from 6 up name none. */
  function KeyOf(nr: uint8): (k: Option<Key>)
    ensures k.Some? <==> nr < 6
    ensures k.Some? ==> KeyCode(k.value) == nr
  {
    if nr == 0 then Some(NoKey)
    else if nr == 1 then Some(SelectKey)
    else if nr == 2 then Some(LeftKey)
    else if nr == 3 then Some(DownKey)
    else if nr == 4 then Some(UpKey)
    else if nr == 5 then Some(RightKey)
    else None
  }

  /** Each key is named by exactly one key number. */
  lemma KeyCodeRoundTrip(k: Key)
    ensures KeyOf(KeyCode(k)) == Some(k)
  {
  }

  // ---------------------------------------------------------------------
  // Actions

  /** `Action::run`: the virtual member of the handler object, applied to the
      action item; supplied by the application. */
  type ActionRun = (ActionRef, Item) -> bool

  /** What the walker does with the display after running an action. */
  datatype Redraw = Render | NoRender

  /** An action's handler decides the redraw: true asks the walker to render
      the display, false leaves it as it is. */
  function AfterAction(run: ActionRun, action: Item): (r: Redraw)
    requires action.Action?
    ensures r == Render <==> run(action.obj, action)
    ensures r == NoRender <==> !run(action.obj, action)
  {
    if run(action.obj, action) then Render else NoRender
  }

  // ---------------------------------------------------------------------
  // Paths

  /** A path stack's live slots: every slot holds a well-formed item list,
      and each list after the first is an entry of the list below it. */
  ghost predicate IsPath(p: seq<Option<MenuList>>)
  {
    |p| >= 1 &&
    (forall i :: 0 <= i < |p| ==> p[i].Some? && WellFormed(p[i].value)) &&
    (forall i :: 0 < i < |p| ==> Contains(p[i - 1].value.list, p[i].value))
  }

  /** Every list on a path is reachable from the root through item lists. */
  lemma {:induction false} PathPrefix(p: seq<Option<MenuList>>, n: nat)
    requires IsPath(p) && 1 <= n <= |p|
    ensures IsPath(p[..n]) && p[..n][0] == p[0]
  {
  }

  // ---------------------------------------------------------------------
  // The walker

  class Walker {
    /** The path stack (`m_stack`); slots above the top are not part of the path. */
    const stack: array<Option<MenuList>>
    /** Index of the top of the path stack (`m_top`). */
    var top: uint8
    /** Current menu list item index (`m_ix`). */
    var ix: uint8
    /** Current bitset index (`m_bv`). */
    var bv: uint8
    /** Item selection state (`m_selected`). */
    var selected: bool
    /** The `run` members of the tree's action handlers. */
    const run: ActionRun
    /** The key numbers delivered to the walker so far: instrumentation that
        only OnKeyDown appends to. */
    ghost var keys: seq<uint8>

    /** The stack has STACK_MAX slots, the top indexes one of them, and the
        slots up to the top hold a path from the root list. */
    ghost predicate Valid()
      reads this, stack
    {
      stack.Length == STACK_MAX as int && top < STACK_MAX &&
      IsPath(stack[..top as int + 1])
    }

    /** The live part of the path stack, root first. */
    ghost function Path(): (p: seq<Option<MenuList>>)
      reads this, stack
      requires Valid()
      ensures IsPath(p) && |p| == top as int + 1
    {
      stack[..top as int + 1]
    }

    /** The root item list, at the bottom of the stack. */
    ghost function Root(): (r: MenuList)
      reads this, stack
      requires Valid()
      ensures Path()[0] == Some(r) && WellFormed(r)
    {
      stack[0].value
    }

    /** Menu::Walker(lcd, root): an empty path above the root list, both
        cursors at zero and nothing selected. The display device is not
        part of this model; `run` stands for the handlers the tree's action
        items point to. */
    constructor (root: MenuList, run: ActionRun)
      requires WellFormed(root)
      ensures Valid() && fresh(stack) && this.run == run
      ensures top == 0 && ix == 0 && bv == 0 && !selected
      ensures stack[0] == Some(root) && Path() == [Some(root)] && Root() == root
      ensures keys == []
    {
      stack := new Option<MenuList>[STACK_MAX](_ => None);
      top := 0;
      ix := 0;
      bv := 0;
      selected := false;
      this.run := run;
      keys := [];
      new;
      stack[top] := Some(root);
    }

    /** The number of lists on the path: at least the root, at most STACK_MAX. */
    method Depth() returns (d: uint8)
      requires Valid()
      ensures 1 <= d <= STACK_MAX && d as int == |Path()|
    {
      d := top + 1;
    }

    /** The item list being shown, `m_stack[m_top]`: the last list on the path. */
    method Current() returns (l: MenuList)
      requires Valid()
      ensures Path()[|Path()| - 1] == Some(l)
      ensures WellFormed(l) && None in l.list
    {
      l := stack[top].value;
    }

    /** Push entry k of the current list when it is an item list and a slot is
        free; otherwise nothing changes. */
    method Descend(k: uint8) returns (pushed: bool)
      requires Valid()
      modifies this`top, stack
      ensures Valid() && Root() == old(Root())
      ensures var cur := old(stack[top].value);
        pushed <==> old(top) + 1 < STACK_MAX && (k as int) < Length(cur.list) && cur.list[k].value.List?
      ensures pushed ==> top == old(top) + 1 && Path() == old(Path()) + [old(stack[top].value.list[k])]
      ensures !pushed ==> top == old(top) && Path() == old(Path())
    {
      var cur := stack[top].value;
      pushed := top + 1 < STACK_MAX && (k as int) < Length(cur.list) && cur.list[k].value.List?;
      if pushed {
        ghost var p := Path();
        var next := cur.list[k].value;
        assert Contains(cur.list, next) by { assert Entries(cur.list)[k] == next; }
        EntryWellFormed(cur, next);
        stack[top + 1] := Some(next);
        top := top + 1;
        assert Path() == p + [Some(next)];
      }
    }

    /** Pop the current list when it is not the root; at the root nothing changes. */
    method Ascend() returns (popped: bool)
      requires Valid()
      modifies this`top
      ensures Valid() && Root() == old(Root())
      ensures popped <==> old(top) > 0
      ensures Path() == if popped then old(Path())[..old(top)] else old(Path())
    {
      popped := top > 0;
      if popped {
        PathPrefix(Path(), top as int);
        top := top - 1;
      }
    }

    /** Run the action at entry k of the current list, if it is one: its
        handler's answer is the redraw decision. Anything else runs nothing and
        asks for no redraw. The walker's state does not change. */
    method RunAction(k: uint8) returns (render: bool, ran: Option<Item>)
      requires Valid()
      ensures var list := stack[top].value.list;
        ran.Some? <==> (k as int) < Length(list) && list[k].value.Action?
      ensures ran.Some? ==>
        ran == stack[top].value.list[k] && ran.value.Action? &&
        Contains(stack[top].value.list, ran.value) &&
        (render <==> AfterAction(run, ran.value) == Render)
      ensures ran.None? ==> !render
    {
      var cur := Current();
      if (k as int) < Length(cur.list) && cur.list[k].value.Action? {
        var action := cur.list[k].value;
        assert Contains(cur.list, action) by { assert Entries(cur.list)[k] == action; }
        ran := Some(action);
        render := AfterAction(run, action) == Render;
      } else {
        ran := None;
        render := false;
      }
    }

    /** Menu::Walker::on_key_down(nr): the key interpreter, defined in
        Menu.cpp, which is not part of this model. It accepts any key number
        and keeps the state valid. The body is a nondeterministic stand-in:
        it may leave the path, ascend one level, descend into any item list
        entry of the current list or run any action entry of the current
        list, and sets the cursors and the selection flag to arbitrary values.
        `render` says whether the walker redraws the display; when an action
        ran (`ran`), its handler's answer decides it. The value cells of the
        tree are in its frame because editing writes them. */
    method OnKeyDown(nr: uint8) returns (render: bool, ghost ran: Option<Item>)
      requires Valid()
      modifies this, stack, Cells(Root())
      ensures Valid() && Root() == old(Root())
      ensures keys == old(keys) + [nr]
      ensures ran.Some? ==>
        ran.value.Action? && Contains(old(stack[top].value.list), ran.value) &&
        (render <==> AfterAction(run, ran.value) == Render)
    {
      keys := keys + [nr];
      ran := None;
      render := *;
      var up: bool := *;
      var down: bool := *;
      var act: bool := *;
      if up {
        var popped := Ascend();
      } else if down {
        var k: uint8 :| true;
        var pushed := Descend(k);
      } else if act {
        var k: uint8 :| true;
        var action: Option<Item>;
        render, action := RunAction(k);
        ran := action;
      }
      ix := *;
      bv := *;
      selected := *;
    }
  }

  // ---------------------------------------------------------------------
  // Keypad adapter

  /** Menu::KeypadController: adapts keypad key-down events to a walker. The
      keypad's own debouncing and key acquisition are not part of this model. */
  class KeypadController {
    /** The walker to control (`m_walker`). */
    var walker: Walker

    constructor (walker: Walker)
      ensures this.walker == walker
    {
      this.walker := walker;
    }

    /** Forwards the key number, unchanged, to the walker's key interpreter
        and passes on its redraw decision; the controller itself does not change. */
    method OnKeyDown(nr: uint8) returns (render: bool, ghost ran: Option<Item>)
      requires walker.Valid()
      modifies walker, walker.stack, Cells(walker.Root())
      ensures unchanged(this) && walker.Valid()
      ensures walker.stack == old(walker.stack) && walker.Root() == old(walker.Root())
      ensures walker.keys == old(walker.keys) + [nr]
      ensures ran.Some? ==>
        ran.value.Action? && Contains(old(walker.stack[walker.top].value.list), ran.value) &&
        (render <==> AfterAction(walker.run, ran.value) == Render)
    {
      render, ran := walker.OnKeyDown(nr);
    }
  }
}
