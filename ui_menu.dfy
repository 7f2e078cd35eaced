/**
 * A drop-down menu of the UI library: the part that keeps track of which
 * entry is selected, whether the menu's popup is open, how keys move the
 * selection, and where the frame and the entries are placed. Entries are
 * given by their "selectable" flags, in list order.
 */
module UiMenu {
  import opened Wrappers
  import opened Errno

  // Selection walk

  /** `x % n` of a value that lies within one turn of `[0, n)`. */
  lemma ModOneTurn(x: int, n: nat)
    requires 0 <= x < 2 * n
    ensures x % n == if x < n then x else x - n
  {
    if x < n {
      assert x == 0 * n + x;
    } else {
      assert x == 1 * n + (x - n);
    }
  }

  /** The entry before `i` in a list of `n` entries, wrapping from the first
      to the last (`ui_menu_entry_prev`, or `ui_menu_entry_last` on NULL). */
  function PrevOrLast(n: nat, i: nat): (r: nat)
    requires i < n
    ensures r < n
    ensures r == (i + n - 1) % n
  {
    ModOneTurn(i + n - 1, n);
    if i == 0 then n - 1 else i - 1
  }

  /** The entry after `i`, wrapping from the last to the first
      (`ui_menu_entry_next`, or `ui_menu_entry_first` on NULL). */
  function NextOrFirst(n: nat, i: nat): (r: nat)
    requires i < n
    ensures r < n
    ensures r == (i + 1) % n
  {
    ModOneTurn(i + 1, n);
    if i + 1 < n then i + 1 else 0
  }

  /** The entry `d` steps before `c`, going around the list (0 <= d <= n). */
  function Back(n: nat, c: nat, d: nat): (r: nat)
    requires c < n && d <= n
    ensures r < n
    ensures r == c <==> d == 0 || d == n
  {
    if d <= c then c - d else c + n - d
  }

  /** The entry `d` steps after `c`, going around the list (0 <= d <= n). */
  function Ahead(n: nat, c: nat, d: nat): (r: nat)
    requires c < n && d <= n
    ensures r < n
    ensures r == c <==> d == 0 || d == n
  {
    if c + d < n then c + d else c + d - n
  }

  lemma PrevOrLastBack(n: nat, c: nat, d: nat)
    requires c < n && d < n
    ensures PrevOrLast(n, Back(n, c, d)) == Back(n, c, d + 1)
  {
  }

  lemma NextOrFirstAhead(n: nat, c: nat, d: nat)
    requires c < n && d < n
    ensures NextOrFirst(n, Ahead(n, c, d)) == Ahead(n, c, d + 1)
  {
  }

  /**
   * The distance, counted backwards from `c`, of the nearest selectable entry
   * at distance `d` to `n - 1`; 0 when there is none. Entry `c` itself is
   * never a candidate except when it is the only entry.
   */
  function UpDistance(sel: seq<bool>, c: nat, d: nat): (k: nat)
    requires c < |sel| && 1 <= d
    ensures k == 0 || (d <= k < |sel| && sel[Back(|sel|, c, k)])
    ensures forall j :: d <= j < (if k == 0 then |sel| else k) ==> !sel[Back(|sel|, c, j)]
    decreases |sel| - d
  {
    if d >= |sel| then 0
    else if sel[Back(|sel|, c, d)] then d
    else UpDistance(sel, c, d + 1)
  }

  /** The same, counted forwards from `c`. */
  function DownDistance(sel: seq<bool>, c: nat, d: nat): (k: nat)
    requires c < |sel| && 1 <= d
    ensures k == 0 || (d <= k < |sel| && sel[Ahead(|sel|, c, k)])
    ensures forall j :: d <= j < (if k == 0 then |sel| else k) ==> !sel[Ahead(|sel|, c, j)]
    decreases |sel| - d
  {
    if d >= |sel| then 0
    else if sel[Ahead(|sel|, c, d)] then d
    else DownDistance(sel, c, d + 1)
  }

  /** The entry `ui_menu_up` moves the selection to from `c`: the nearest
      selectable entry before it, wrapping around; `c` when there is none. */
  function UpTarget(sel: seq<bool>, c: nat): (r: nat)
    requires c < |sel|
    ensures r < |sel|
    ensures r != c ==> sel[r]
  {
    Back(|sel|, c, UpDistance(sel, c, 1))
  }

  /** The entry `ui_menu_down` moves the selection to from `c`. */
  function DownTarget(sel: seq<bool>, c: nat): (r: nat)
    requires c < |sel|
    ensures r < |sel|
    ensures r != c ==> sel[r]
  {
    Ahead(|sel|, c, DownDistance(sel, c, 1))
  }

  /** Moving up skips only unselectable entries: every entry strictly
      between the old and the new selection (going backwards) is not
      selectable, and the selection stays put only when no other entry is. */
  lemma UpIsNearest(sel: seq<bool>, c: nat)
    requires c < |sel|
    ensures var k := UpDistance(sel, c, 1);
      forall j :: 1 <= j < (if k == 0 then |sel| else k) ==> !sel[Back(|sel|, c, j)]
    ensures UpTarget(sel, c) == c <==>
      forall i :: 0 <= i < |sel| && i != c ==> !sel[i]
  {
    var n := |sel|;
    var k := UpDistance(sel, c, 1);
    if k == 0 {
      forall i | 0 <= i < n && i != c
        ensures !sel[i]
      {
        var j := if i < c then c - i else c + n - i;
        assert Back(n, c, j) == i;
      }
    }
  }

  /** Moving down skips only unselectable entries (the mirror image). */
  lemma DownIsNearest(sel: seq<bool>, c: nat)
    requires c < |sel|
    ensures var k := DownDistance(sel, c, 1);
      forall j :: 1 <= j < (if k == 0 then |sel| else k) ==> !sel[Ahead(|sel|, c, j)]
    ensures DownTarget(sel, c) == c <==>
      forall i :: 0 <= i < |sel| && i != c ==> !sel[i]
  {
    var n := |sel|;
    var k := DownDistance(sel, c, 1);
    if k == 0 {
      forall i | 0 <= i < n && i != c
        ensures !sel[i]
      {
        var j := if c < i then i - c else i + n - c;
        assert Ahead(n, c, j) == i;
      }
    }
  }

  // Keyboard events

  datatype KeyEventType = KeyPress | KeyRelease
  datatype Modifier = LShift | RShift | LCtrl | RCtrl | LAlt | RAlt | CapsLock | NumLock | ScrollLock
  datatype Key = Escape | Left | Right | Up | Down | Enter | OtherKey(code: int)
  datatype KbdEvent = KbdEvent(kind: KeyEventType, key: Key, mods: set<Modifier>)

  /** KM_CTRL | KM_ALT | KM_SHIFT */
  const ChordModifiers: set<Modifier> := {LShift, RShift, LCtrl, RCtrl, LAlt, RAlt}

  datatype EvClaim = Claimed | Unclaimed

  /** Calls into the menu bar and the entries that a key press makes. */
  datatype Request =
    | NoRequest
    | DeactivateBar      // ui_menu_bar_deactivate
    | BarLeft            // ui_menu_bar_left
    | BarRight           // ui_menu_bar_right
    | ActivateEntry(entry: nat)  // ui_menu_entry_activate

  // Geometry

  datatype Coord = Coord(x: int, y: int)
  datatype Rect = Rect(p0: Coord, p1: Coord)
  datatype Geom = Geom(outerRect: Rect, entriesRect: Rect)

  const MENU_FRAME_W: int := 4
  const MENU_FRAME_H: int := 4
  const MENU_FRAME_W_TEXT: int := 2
  const MENU_FRAME_H_TEXT: int := 1

  /** The frame thickness: (2, 1) in text mode, (4, 4) otherwise. */
  function Frame(textmode: bool): (f: Coord)
    ensures f.x > 0 && f.y > 0
  {
    if textmode then Coord(MENU_FRAME_W_TEXT, MENU_FRAME_H_TEXT)
    else Coord(MENU_FRAME_W, MENU_FRAME_H)
  }

  /**
   * `ui_menu_get_geom`: the outer rectangle is the entries' dimensions
   * `edim` plus the frame on both sides; the entries rectangle starts one
   * frame inside it. As written, the bottom edge of the entries rectangle is
   * computed from its left edge rather than from its top edge.
   */
  function GetGeom(textmode: bool, spos: Coord, edim: Coord): (g: Geom)
    ensures g.outerRect.p0 == spos
    ensures g.outerRect.p1.x - g.outerRect.p0.x == edim.x + 2 * Frame(textmode).x
    ensures g.outerRect.p1.y - g.outerRect.p0.y == edim.y + 2 * Frame(textmode).y
    ensures g.entriesRect.p0.x - g.outerRect.p0.x == Frame(textmode).x
    ensures g.entriesRect.p0.y - g.outerRect.p0.y == Frame(textmode).y
    ensures g.entriesRect.p1.x == g.outerRect.p1.x - Frame(textmode).x
    ensures g.entriesRect.p1.y == g.entriesRect.p0.x + edim.y
  {
    var f := Frame(textmode);
    var outer := Rect(spos, Coord(spos.x + edim.x + 2 * f.x, spos.y + edim.y + 2 * f.y));
    var p0 := Coord(spos.x + f.x, spos.y + f.y);
    Geom(outer, Rect(p0, Coord(p0.x + edim.x, p0.x + edim.y)))
  }

  /** The entries rectangle the geometry evidently intends: one frame inside
      the outer rectangle on every side. */
  function GetGeomCorrected(textmode: bool, spos: Coord, edim: Coord): (g: Geom)
    ensures g.outerRect == GetGeom(textmode, spos, edim).outerRect
    ensures g.entriesRect.p0 == GetGeom(textmode, spos, edim).entriesRect.p0
    ensures g.entriesRect.p1.x == g.outerRect.p1.x - Frame(textmode).x
    ensures g.entriesRect.p1.y == g.outerRect.p1.y - Frame(textmode).y
    ensures g.entriesRect.p1.y - g.entriesRect.p0.y == edim.y
  {
    var f := Frame(textmode);
    var outer := Rect(spos, Coord(spos.x + edim.x + 2 * f.x, spos.y + edim.y + 2 * f.y));
    var p0 := Coord(spos.x + f.x, spos.y + f.y);
    Geom(outer, Rect(p0, Coord(p0.x + edim.x, p0.y + edim.y)))
  }

  /** As written, the entries rectangle has height `edim.y` only when its
      top-left corner lies on the diagonal; the two definitions agree exactly
      then. */
  lemma GeomAgreesOnlyOnDiagonal(textmode: bool, spos: Coord, edim: Coord)
    ensures var g := GetGeom(textmode, spos, edim);
      g.entriesRect.p1.y - g.entriesRect.p0.y ==
        edim.y + g.entriesRect.p0.x - g.entriesRect.p0.y
    ensures GetGeom(textmode, spos, edim) == GetGeomCorrected(textmode, spos, edim) <==>
      spos.x + Frame(textmode).x == spos.y + Frame(textmode).y
  {
  }

  /** `ui_menu_open` places the popup at (0, 0); in text mode the entries
      rectangle as written then reaches one row below the entries. */
  lemma GeomTextModeAtOrigin(edim: Coord)
    ensures GetGeom(true, Coord(0, 0), edim).entriesRect.p1.y ==
      GetGeomCorrected(true, Coord(0, 0), edim).entriesRect.p1.y + 1
    ensures GetGeom(false, Coord(0, 0), edim) == GetGeomCorrected(false, Coord(0, 0), edim)
  {
  }

  /**
   * A menu: the selectable flags of its entries, the selected entry and
   * whether its popup window exists.
   */
  class Menu {
    var entries: seq<bool>
    var selected: Option<nat>
    var popupOpen: bool

    ghost predicate Valid()
      reads this
    {
      selected.Some? ==> selected.value < |entries|
    }

    /** A closed menu over the given entries, nothing selected. */
    constructor (entries: seq<bool>)
      ensures Valid()
      ensures this.entries == entries && selected == None && !popupOpen
    {
      this.entries := entries;
      selected := None;
      popupOpen := false;
    }

    /** `ui_menu_is_open` */
    predicate IsOpen()
      reads this
    {
      popupOpen
    }

    /**
     * `ui_menu_open`, selection and popup state: selects the first entry
     * (none when the menu is empty), then creates the popup, whose result
     * `createRc` is an input, and paints, whose result `paintRc` is an input.
     */
    method Open(createRc: Errno, paintRc: Errno) returns (rc: Errno)
      requires Valid()
      modifies this
      ensures Valid() && entries == old(entries)
      ensures selected == if |entries| > 0 then Some(0) else None
      ensures createRc != EOK ==> rc == createRc && popupOpen == old(popupOpen)
      ensures createRc == EOK ==> rc == paintRc && IsOpen()
    {
      selected := if |entries| > 0 then Some(0) else None;
      if createRc != EOK {
        return createRc;
      }
      popupOpen := true;
      rc := paintRc;
    }

    /** `ui_menu_close`: destroys the popup, so the menu is no longer open. */
    method Close()
      requires Valid()
      modifies this`popupOpen
      ensures Valid() && !IsOpen()
    {
      popupOpen := false;
    }

    /** `ui_menu_up`: moves the selection to the nearest selectable entry
        before it, wrapping from the first entry to the last. */
    method MoveUp()
      requires Valid()
      modifies this`selected
      ensures Valid()
      ensures old(selected).None? ==> selected == None
      ensures old(selected).Some? ==> selected == Some(UpTarget(entries, old(selected).value))
    {
      if selected.None? {
        return;
      }
      var n := |entries|;
      var cur := selected.value;
      var nentry := PrevOrLast(n, cur);
      ghost var d: nat := 1;
      assert nentry == Back(n, cur, d);

      // Need to find a selectable entry
      while !entries[nentry]
        invariant selected == Some(cur)
        invariant 1 <= d < n || (d == 1 && n == 1)
        invariant nentry == Back(n, cur, d)
        invariant UpDistance(entries, cur, 1) == UpDistance(entries, cur, d)
        decreases n - d
      {
        if d < n {
          PrevOrLastBack(n, cur, d);
        }
        nentry := PrevOrLast(n, nentry);
        d := d + 1;

        // Went completely around and found nothing?
        if nentry == cur {
          return;
        }
      }

      selected := Some(nentry);
    }

    /** `ui_menu_down`: moves the selection to the nearest selectable entry
        after it, wrapping from the last entry to the first. */
    method MoveDown()
      requires Valid()
      modifies this`selected
      ensures Valid()
      ensures old(selected).None? ==> selected == None
      ensures old(selected).Some? ==> selected == Some(DownTarget(entries, old(selected).value))
    {
      if selected.None? {
        return;
      }
      var n := |entries|;
      var cur := selected.value;
      var nentry := NextOrFirst(n, cur);
      ghost var d: nat := 1;
      assert nentry == Ahead(n, cur, d);

      // Need to find a selectable entry
      while !entries[nentry]
        invariant selected == Some(cur)
        invariant 1 <= d < n || (d == 1 && n == 1)
        invariant nentry == Ahead(n, cur, d)
        invariant DownDistance(entries, cur, 1) == DownDistance(entries, cur, d)
        decreases n - d
      {
        if d < n {
          NextOrFirstAhead(n, cur, d);
        }
        nentry := NextOrFirst(n, nentry);
        d := d + 1;

        // Went completely around and found nothing?
        if nentry == cur {
          return;
        }
      }

      selected := Some(nentry);
    }

    /**
     * `ui_menu_kbd_event`: always claims the event; only a key press with
     * no Ctrl, Alt or Shift held does anything. Up and Down move the
     * selection; Escape, Left, Right and Enter (with an entry selected) are
     * requests to the menu bar or the entry, returned as `req`.
     */
    method KbdEvent(ev: KbdEvent) returns (claim: EvClaim, req: Request)
      requires Valid()
      modifies this`selected
      ensures Valid()
      ensures claim == Claimed
      ensures var acts := ev.kind == KeyPress && ev.mods * ChordModifiers == {};
        && (!acts ==> selected == old(selected) && req == NoRequest)
        && (acts ==> match ev.key
            case Escape => req == DeactivateBar && selected == old(selected)
            case Left => req == BarLeft && selected == old(selected)
            case Right => req == BarRight && selected == old(selected)
            case Up => req == NoRequest &&
              selected == (if old(selected).None? then None
                           else Some(UpTarget(entries, old(selected).value)))
            case Down => req == NoRequest &&
              selected == (if old(selected).None? then None
                           else Some(DownTarget(entries, old(selected).value)))
            case Enter => selected == old(selected) &&
              req == (if selected.Some? then ActivateEntry(selected.value) else NoRequest)
            case OtherKey(_) => req == NoRequest && selected == old(selected))
    {
      req := NoRequest;
      if ev.kind == KeyPress && ev.mods * ChordModifiers == {} {
        match ev.key
        case Escape => req := DeactivateBar;
        case Left => req := BarLeft;
        case Right => req := BarRight;
        case Up => MoveUp();
        case Down => MoveDown();
        case Enter =>
          if selected.Some? {
            req := ActivateEntry(selected.value);
          }
        case OtherKey(_) =>
      }
      claim := Claimed;
    }
  }
}
