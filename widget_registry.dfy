/**
 * The main process's list of open widget windows (`widgetWindows`): every open
 * request appends one window, the window's `closed` event removes it again, and
 * a drag message moves the window that sent it by a relative delta.
 */
module WidgetRegistry {

  /** A widget's window: its screen position and whether its scratch HTML file exists. */
  class WidgetWindow {
    var x: int
    var y: int
    var scratchFile: bool
    var closeRequested: bool

    constructor (x: int, y: int)
      ensures this.x == x && this.y == y && !scratchFile && !closeRequested
    {
      this.x, this.y := x, y;
      scratchFile, closeRequested := false, false;
    }
  }

  /** `s.indexOf(w)`: the first position holding `w`, or -1. */
  function IndexOf<T(==)>(s: seq<T>, w: T): (r: int)
    ensures -1 <= r < |s|
    ensures r == -1 <==> w !in s
    ensures 0 <= r ==> s[r] == w && w !in s[..r]
  {
    if s == [] then -1
    else if s[0] == w then 0
    else
      var k := IndexOf(s[1..], w);
      assert s[1..] == s[..|s|][1..];
      if k == -1 then -1
      else
        assert s[..k + 1] == [s[0]] + s[1..][..k];
        k + 1
  }

  /** The `closed` handler's list update: `splice(indexOf(w), 1)` when `w` is present. */
  function Removed<T(==)>(s: seq<T>, w: T): seq<T> {
    var i := IndexOf(s, w);
    if i > -1 then s[..i] + s[i + 1..] else s
  }

  /** No window appears twice. */
  ghost predicate Distinct<T>(s: seq<T>) {
    forall i, j :: 0 <= i < j < |s| ==> s[i] != s[j]
  }

  /** Closing a window that is not in the list changes nothing. */
  lemma RemovedAbsent<T>(s: seq<T>, w: T)
    requires w !in s
    ensures Removed(s, w) == s
  {
  }

  /**
   * Closing a listed window removes exactly that window: the others stay, in
   * their order, and the list is one shorter.
   */
  lemma RemovedPresent<T>(s: seq<T>, i: nat)
    requires Distinct(s) && i < |s|
    ensures Removed(s, s[i]) == s[..i] + s[i + 1..]
    ensures s[i] !in Removed(s, s[i])
    ensures |Removed(s, s[i])| == |s| - 1
    ensures Distinct(Removed(s, s[i]))
  {
    var k := IndexOf(s, s[i]);
    assert k == i by {
      assert s[..i + 1][i] == s[i];
    }
    var r := s[..i] + s[i + 1..];
    forall j | 0 <= j < |r| ensures r[j] != s[i] {
      if j < i { assert r[j] == s[j]; } else { assert r[j] == s[j + 1]; }
    }
    forall a, b | 0 <= a < b < |r| ensures r[a] != r[b] {
      var a' := if a < i then a else a + 1;
      var b' := if b < i then b else b + 1;
      assert r[a] == s[a'] && r[b] == s[b'];
    }
  }

  /** Appending a window that is not yet listed keeps the list free of repeats. */
  lemma DistinctAppend<T>(s: seq<T>, w: T)
    requires Distinct(s) && w !in s
    ensures Distinct(s + [w])
  {
    forall i, j | 0 <= i < j < |s + [w]| ensures (s + [w])[i] != (s + [w])[j] {
      if j == |s| { assert (s + [w])[i] == s[i]; }
    }
  }

  class Registry {
    var widgetWindows: seq<WidgetWindow>

    ghost predicate Valid()
      reads this
    {
      Distinct(widgetWindows)
    }

    constructor ()
      ensures Valid() && widgetWindows == []
    {
      widgetWindows := [];
    }

    /**
     * `createWidgetWindow`: a new window is always appended, with no cap and no
     * replacement of an open one. When its scratch file cannot be written the
     * window is asked to close; its `closed` event later removes it.
     */
    method Open(x: int, y: int, scratchWritten: bool) returns (w: WidgetWindow)
      requires Valid()
      modifies this
      ensures Valid() && fresh(w)
      ensures widgetWindows == old(widgetWindows) + [w]
      ensures w.x == x && w.y == y
      ensures w.scratchFile == scratchWritten && w.closeRequested == !scratchWritten
    {
      w := new WidgetWindow(x, y);
      DistinctAppend(widgetWindows, w);
      widgetWindows := widgetWindows + [w];
      if scratchWritten {
        w.scratchFile := true;
      } else {
        w.closeRequested := true;
      }
    }

    /** The window's `closed` event: it leaves the list and its scratch file is removed. */
    method OnClosed(w: WidgetWindow)
      requires Valid()
      modifies this, w
      ensures Valid()
      ensures widgetWindows == Removed(old(widgetWindows), w)
      ensures w !in widgetWindows
      ensures !w.scratchFile
      ensures w.x == old(w.x) && w.y == old(w.y) && w.closeRequested == old(w.closeRequested)
    {
      var index := IndexOf(widgetWindows, w);
      if index > -1 {
        RemovedPresent(widgetWindows, index);
        widgetWindows := widgetWindows[..index] + widgetWindows[index + 1..];
      }
      w.scratchFile := false;
    }

    /** `close-widget`: the sending window, if there is one, is asked to close. */
    static method RequestClose(sender: WidgetWindow?)
      modifies sender
      ensures sender != null ==> sender.closeRequested
      ensures sender != null ==> sender.x == old(sender.x) && sender.y == old(sender.y)
      ensures sender != null ==> sender.scratchFile == old(sender.scratchFile)
    {
      if sender != null {
        sender.closeRequested := true;
      }
    }

    /** `move-widget-window`: the sending window moves by the delta; the list is untouched. */
    static method MoveWidgetWindow(sender: WidgetWindow?, deltaX: int, deltaY: int)
      modifies sender
      ensures sender != null ==> sender.x == old(sender.x) + deltaX && sender.y == old(sender.y) + deltaY
      ensures sender != null ==> sender.scratchFile == old(sender.scratchFile)
      ensures sender != null ==> sender.closeRequested == old(sender.closeRequested)
    {
      if sender != null {
        var currentX, currentY := sender.x, sender.y;
        sender.x, sender.y := currentX + deltaX, currentY + deltaY;
      }
    }
  }
}
