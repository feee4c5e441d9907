/**
 * The portfolio desktop's window registry: a map from window id to window state,
 * iterated in insertion order (a JavaScript `Map`), plus the counter that hands out
 * z-order values. `dispatch` is a copy-on-write update of the map; here each action
 * is a method that updates the registry's fields in place.
 */
module WindowManager {
  import opened Wrappers

  datatype Point = Point(x: int, y: int)
  datatype Size = Size(width: int, height: int)

  datatype WindowState = WindowState(
    id: string,
    title: string,
    isOpen: bool,
    isMinimized: bool,
    isMaximized: bool,
    position: Point,
    size: Size,
    zIndex: int,
    icon: Option<string>,
    minimizedAt: Option<int>)

  datatype Action =
    | Open(id: string, title: string, icon: Option<string>)
    | Close(id: string)
    | Minimize(id: string)
    | Maximize(id: string)
    | Restore(id: string)
    | Focus(id: string)
    | Move(id: string, position: Point)
    | Resize(id: string, size: Size)

  const DefaultWindowSize := Size(400, 300)
  const DefaultPosition := Point(50, 50)
  const PositionOffset := 30
  const InitialTopZIndex := 100

  /** A window the desktop draws: open and not minimized. */
  predicate Visible(w: WindowState) {
    w.isOpen && !w.isMinimized
  }

  /** A window that sits in the task tray: open and minimized. */
  predicate Tray(w: WindowState) {
    w.isOpen && w.isMinimized
  }

  predicate Distinct(s: seq<string>) {
    forall i, j :: 0 <= i < j < |s| ==> s[i] != s[j]
  }

  /** The registry's iteration order: every key once, and nothing else. */
  ghost predicate OrderOf(windows: map<string, WindowState>, order: seq<string>) {
    Distinct(order) && (forall k :: k in order <==> k in windows)
  }

  /** The map's values in iteration order (`Array.from(windows.values())`). */
  function ValuesInOrder(windows: map<string, WindowState>, order: seq<string>): (r: seq<WindowState>)
    requires forall k :: k in order ==> k in windows
    ensures |r| == |order|
    ensures forall i :: 0 <= i < |order| ==> r[i] == windows[order[i]]
  {
    if order == [] then [] else [windows[order[0]]] + ValuesInOrder(windows, order[1..])
  }

  function FilterVisible(s: seq<WindowState>): (r: seq<WindowState>)
    ensures |r| <= |s|
    ensures forall w :: w in r <==> w in s && Visible(w)
  {
    if s == [] then [] else (if Visible(s[0]) then [s[0]] else []) + FilterVisible(s[1..])
  }

  function FilterTray(s: seq<WindowState>): (r: seq<WindowState>)
    ensures |r| <= |s|
    ensures forall w :: w in r <==> w in s && Tray(w)
  {
    if s == [] then [] else (if Tray(s[0]) then [s[0]] else []) + FilterTray(s[1..])
  }

  /** `getOpenWindows`: the entries that are open and not minimized, in iteration order. */
  function OpenWindows(windows: map<string, WindowState>, order: seq<string>): (r: seq<WindowState>)
    requires OrderOf(windows, order)
    ensures forall w :: w in r <==> w in windows.Values && Visible(w)
  {
    var vs := ValuesInOrder(windows, order);
    assert forall w :: w in vs <==> w in windows.Values by {
      forall w | w in windows.Values ensures w in vs {
        var k :| k in windows && windows[k] == w;
        var i :| 0 <= i < |order| && order[i] == k;
        assert vs[i] == w;
      }
    }
    FilterVisible(vs)
  }

  /** The tray's sort key: `minimizedAt`, or 0 when it was never stamped. */
  function TrayKey(w: WindowState): int {
    w.minimizedAt.GetOr(0)
  }

  predicate SortedByTrayKey(s: seq<WindowState>) {
    forall i, j :: 0 <= i < j < |s| ==> TrayKey(s[i]) <= TrayKey(s[j])
  }

  /** Putting back a last entry whose key exceeds the inserted one keeps the insertion sorted. */
  lemma AppendLargest(init: seq<WindowState>, last: WindowState, w: WindowState, rest: seq<WindowState>)
    requires SortedByTrayKey(init + [last]) && SortedByTrayKey(rest) && TrayKey(w) < TrayKey(last)
    requires forall v :: v in rest ==> v in init || v == w
    ensures SortedByTrayKey(rest + [last])
  {
    var s := init + [last];
    forall i | 0 <= i < |rest|
      ensures TrayKey(rest[i]) <= TrayKey(last)
    {
      assert rest[i] in rest;
      if rest[i] != w {
        var j :| 0 <= j < |init| && init[j] == rest[i];
        assert s[j] == init[j] && s[|s| - 1] == last;
      }
    }
  }

  /** Inserts `w` into the sorted `s` after every entry whose key is not larger (a stable insertion). */
  function InsertByTrayKey(s: seq<WindowState>, w: WindowState): (r: seq<WindowState>)
    requires SortedByTrayKey(s)
    ensures SortedByTrayKey(r)
    ensures multiset(r) == multiset(s) + multiset{w}
    ensures forall v :: v in r ==> v in s || v == w
  {
    if s == [] then [w]
    else if TrayKey(s[|s| - 1]) <= TrayKey(w) then s + [w]
    else
      var init, last := s[..|s| - 1], s[|s| - 1];
      assert s == init + [last];
      var rest := InsertByTrayKey(init, w);
      AppendLargest(init, last, w, rest);
      rest + [last]
  }

  /** The stable sort `Array.prototype.sort` performs with the comparator on `TrayKey`. */
  function SortByTrayKey(s: seq<WindowState>): (r: seq<WindowState>)
    ensures SortedByTrayKey(r)
    ensures multiset(r) == multiset(s)
  {
    if s == [] then []
    else
      assert s == s[..|s| - 1] + [s[|s| - 1]];
      InsertByTrayKey(SortByTrayKey(s[..|s| - 1]), s[|s| - 1])
  }

  /** `getMinimizedWindows`: the open, minimized entries, oldest `minimizedAt` first. */
  function MinimizedWindows(windows: map<string, WindowState>, order: seq<string>): (r: seq<WindowState>)
    requires OrderOf(windows, order)
    ensures SortedByTrayKey(r)
    ensures forall w :: w in r <==> w in windows.Values && Tray(w)
  {
    var vs := ValuesInOrder(windows, order);
    assert forall w :: w in vs <==> w in windows.Values by {
      forall w | w in windows.Values ensures w in vs {
        var k :| k in windows && windows[k] == w;
        var i :| 0 <= i < |order| && order[i] == k;
        assert vs[i] == w;
      }
    }
    var tray := FilterTray(vs);
    var r := SortByTrayKey(tray);
    assert forall w :: w in r <==> w in multiset(tray);
    r
  }

  /** The cascade position of the next new window, from the number of drawn windows. */
  function PositionFor(count: nat): Point {
    Point(DefaultPosition.x + (count * PositionOffset) % 200,
          DefaultPosition.y + (count * PositionOffset) % 150)
  }

  /** `getNextPosition`: cascades by 30px per drawn window, wrapping so it stays on screen. */
  function NextPosition(windows: map<string, WindowState>, order: seq<string>): (p: Point)
    requires OrderOf(windows, order)
    ensures 50 <= p.x < 250 && 50 <= p.y < 200
  {
    PositionFor(|OpenWindows(windows, order)|)
  }

  /** The first window lands at the default position, and the cascade repeats every 20 windows. */
  lemma PositionCycle(count: nat)
    ensures PositionFor(0) == DefaultPosition
    ensures PositionFor(count + 20) == PositionFor(count)
  {
    var a := count * PositionOffset;
    assert (count + 20) * PositionOffset == a + 600;
    assert (a + 600) % 200 == a % 200;
    assert (a + 600) % 150 == a % 150;
  }

  /** `useWindowManager`: the registry and its z-order counter. */
  class Registry {
    var windows: map<string, WindowState>
    var order: seq<string>
    var topZIndex: int

    ghost predicate Valid()
      reads this
    {
      && OrderOf(windows, order)
      && topZIndex >= InitialTopZIndex
      && (forall k :: k in windows ==> windows[k].id == k)
      && (forall k :: k in windows ==> windows[k].isOpen)
      && (forall k :: k in windows ==> windows[k].zIndex <= topZIndex)
    }

    constructor ()
      ensures Valid()
      ensures windows == map[] && order == [] && topZIndex == InitialTopZIndex
    {
      windows := map[];
      order := [];
      topZIndex := InitialTopZIndex;
    }

    /** OPEN: restores and raises an existing window; otherwise creates one at the cascade position. */
    method Open(id: string, title: string, icon: Option<string>)
      requires Valid()
      modifies this
      ensures Valid()
      ensures topZIndex == old(topZIndex) + 1
      ensures id in old(windows) ==>
        && windows == old(windows)[id := old(windows)[id].(isOpen := true, isMinimized := false, zIndex := old(topZIndex) + 1)]
        && order == old(order)
      ensures id !in old(windows) ==>
        && windows == old(windows)[id := WindowState(id, title, true, false, false,
                                                     NextPosition(old(windows), old(order)),
                                                     DefaultWindowSize, old(topZIndex) + 1, icon, None)]
        && order == old(order) + [id]
      ensures forall k :: k in windows && k != id ==> windows[k].zIndex < windows[id].zIndex
    {
      if id in windows {
        var existing := windows[id];
        windows := windows[id := existing.(isOpen := true, isMinimized := false, zIndex := topZIndex + 1)];
      } else {
        var position := NextPosition(windows, order);
        windows := windows[id := WindowState(id, title, true, false, false, position,
                                             DefaultWindowSize, topZIndex + 1, icon, None)];
        order := order + [id];
      }
      topZIndex := topZIndex + 1;
    }

    /** CLOSE: removes the entry; an unknown id is a no-op. */
    method Close(id: string)
      requires Valid()
      modifies this
      ensures Valid()
      ensures windows == old(windows) - {id}
      ensures topZIndex == old(topZIndex)
      ensures order == RemoveKey(old(order), id)
      ensures forall k :: k in order <==> k in old(order) && k != id
    {
      windows := windows - {id};
      order := RemoveKey(order, id);
    }

    /** MINIMIZE: sets the flag and stamps the time `now` (the source's `Date.now()`). */
    method Minimize(id: string, now: int)
      requires Valid()
      modifies this
      ensures Valid()
      ensures windows == if id in old(windows)
                         then old(windows)[id := old(windows)[id].(isMinimized := true, minimizedAt := Some(now))]
                         else old(windows)
      ensures order == old(order) && topZIndex == old(topZIndex)
    {
      if id in windows {
        windows := windows[id := windows[id].(isMinimized := true, minimizedAt := Some(now))];
      }
    }

    /** MAXIMIZE: sets the flag and raises the window. */
    method Maximize(id: string)
      requires Valid()
      modifies this
      ensures Valid()
      ensures id in old(windows) ==>
        && windows == old(windows)[id := old(windows)[id].(isMaximized := true, zIndex := old(topZIndex) + 1)]
        && topZIndex == old(topZIndex) + 1
        && (forall k :: k in windows && k != id ==> windows[k].zIndex < windows[id].zIndex)
      ensures id !in old(windows) ==> windows == old(windows) && topZIndex == old(topZIndex)
      ensures order == old(order)
    {
      if id in windows {
        windows := windows[id := windows[id].(isMaximized := true, zIndex := topZIndex + 1)];
        topZIndex := topZIndex + 1;
      }
    }

    /** RESTORE: clears both minimized and maximized, and raises the window. */
    method Restore(id: string)
      requires Valid()
      modifies this
      ensures Valid()
      ensures id in old(windows) ==>
        && windows == old(windows)[id := old(windows)[id].(isMinimized := false, isMaximized := false,
                                                           zIndex := old(topZIndex) + 1)]
        && topZIndex == old(topZIndex) + 1
        && (forall k :: k in windows && k != id ==> windows[k].zIndex < windows[id].zIndex)
      ensures id !in old(windows) ==> windows == old(windows) && topZIndex == old(topZIndex)
      ensures order == old(order)
    {
      if id in windows {
        windows := windows[id := windows[id].(isMinimized := false, isMaximized := false, zIndex := topZIndex + 1)];
        topZIndex := topZIndex + 1;
      }
    }

    /** FOCUS: raises a present, non-minimized window; a minimized or unknown one is left alone. */
    method Focus(id: string)
      requires Valid()
      modifies this
      ensures Valid()
      ensures id in old(windows) && !old(windows)[id].isMinimized ==>
        && windows == old(windows)[id := old(windows)[id].(zIndex := old(topZIndex) + 1)]
        && topZIndex == old(topZIndex) + 1
        && (forall k :: k in windows && k != id ==> windows[k].zIndex < windows[id].zIndex)
      ensures !(id in old(windows) && !old(windows)[id].isMinimized) ==>
        windows == old(windows) && topZIndex == old(topZIndex)
      ensures order == old(order)
    {
      if id in windows && !windows[id].isMinimized {
        windows := windows[id := windows[id].(zIndex := topZIndex + 1)];
        topZIndex := topZIndex + 1;
      }
    }

    /** MOVE: overwrites the position only (even while maximized). */
    method Move(id: string, position: Point)
      requires Valid()
      modifies this
      ensures Valid()
      ensures windows == if id in old(windows) then old(windows)[id := old(windows)[id].(position := position)]
                         else old(windows)
      ensures order == old(order) && topZIndex == old(topZIndex)
    {
      if id in windows {
        windows := windows[id := windows[id].(position := position)];
      }
    }

    /** RESIZE: overwrites the size only; minimums are left to the window component. */
    method Resize(id: string, size: Size)
      requires Valid()
      modifies this
      ensures Valid()
      ensures windows == if id in old(windows) then old(windows)[id := old(windows)[id].(size := size)]
                         else old(windows)
      ensures order == old(order) && topZIndex == old(topZIndex)
    {
      if id in windows {
        windows := windows[id := windows[id].(size := size)];
      }
    }

    /** `dispatch`: applies one action; `now` stands for the clock MINIMIZE reads. */
    method Dispatch(action: Action, now: int)
      requires Valid()
      modifies this
      ensures Valid()
      ensures topZIndex == old(topZIndex) || topZIndex == old(topZIndex) + 1
      ensures action.id !in old(windows) && !action.Open? ==> windows == old(windows) - {action.id}
      ensures forall k :: k in old(windows) && k != action.id ==> k in windows && windows[k] == old(windows)[k]
    {
      match action
      case Open(id, title, icon) => Open(id, title, icon);
      case Close(id) => Close(id);
      case Minimize(id) => Minimize(id, now);
      case Maximize(id) => Maximize(id);
      case Restore(id) => Restore(id);
      case Focus(id) => Focus(id);
      case Move(id, position) => Move(id, position);
      case Resize(id, size) => Resize(id, size);
    }
  }

  /** The iteration order after `Map.delete(id)`. */
  function RemoveKey(s: seq<string>, id: string): (r: seq<string>)
    ensures forall k :: k in r <==> k in s && k != id
    ensures Distinct(s) ==> Distinct(r)
  {
    if s == [] then []
    else
      var rest := RemoveKey(s[1..], id);
      if s[0] == id then rest
      else
        assert Distinct(s) ==> s[0] !in s[1..];
        [s[0]] + rest
  }

  /**
   * Closing and re-opening a window recreates it: the default size, not
   * maximized, on top, and at the cascade position of the windows left after
   * the close, not where it was before. The counter rises by one.
   */
  method CloseThenOpen(r: Registry, id: string, title: string)
    requires r.Valid()
    modifies r
    ensures r.Valid()
    ensures OrderOf(old(r.windows) - {id}, RemoveKey(old(r.order), id))
    ensures id in r.windows && r.windows[id].size == DefaultWindowSize && !r.windows[id].isMaximized
    ensures r.windows[id].position == NextPosition(old(r.windows) - {id}, RemoveKey(old(r.order), id))
    ensures r.topZIndex == old(r.topZIndex) + 1 && r.windows[id].zIndex == r.topZIndex
    ensures forall k :: k in r.windows && k != id ==> r.windows[k].zIndex < r.windows[id].zIndex
    ensures r.windows - {id} == old(r.windows) - {id}
  {
    r.Close(id);
    r.Open(id, title, None);
  }
}
