/**
 * The window/focus state machine: the ordered list of managed windows and
 * the index of the focused one, with focus rotation and removal.
 */
module State {
  import opened XTypes

  /** The abstract value of a WmState: its window list and focus index. */
  datatype StateValue = StateValue(windows: seq<Window>, focused: nat)

  /** The focus invariant: a valid index into a non-empty list, 0 for an empty one. */
  predicate FocusInRange(windows: seq<Window>, focused: nat) {
    if windows == [] then focused == 0 else focused < |windows|
  }

  /** The focus index after `focus_next` on a list of `count` windows. */
  function NextFocus(focused: nat, count: nat): (r: nat)
    ensures count == 0 ==> r == focused
    ensures 0 < count && focused + 1 < count ==> r == focused + 1
    ensures 0 < count && focused + 1 == count ==> r == 0
    ensures 0 < count ==> r < count
  {
    if count == 0 then focused else (focused + 1) % count
  }

  /** The focus index after `focus_prev` on a list of `count` windows. */
  function PrevFocus(focused: nat, count: nat): (r: nat)
    ensures count == 0 ==> r == focused
    ensures 0 < count && focused <= count ==> r < count
  {
    if count == 0 then focused
    else if focused == 0 then count - 1
    else focused - 1
  }

  /** `focus_prev` wraps from the first window to the last and otherwise steps back by one. */
  lemma FocusPrevSteps(focused: nat, count: nat)
    requires 0 < count
    ensures focused == 0 ==> PrevFocus(focused, count) == count - 1
    ensures 0 < focused ==> PrevFocus(focused, count) == focused - 1
  {
  }

  /** On a non-empty list with a valid focus, next and prev undo each other. */
  lemma FocusNextPrevInverse(focused: nat, count: nat)
    requires focused < count
    ensures PrevFocus(NextFocus(focused, count), count) == focused
    ensures NextFocus(PrevFocus(focused, count), count) == focused
  {
  }

  /** The position of the first occurrence of `w`, as `iter().position` finds it. */
  function IndexOf(ws: seq<Window>, w: Window): (r: Option<nat>)
    ensures r.None? <==> w !in ws
    ensures r.Some? ==> r.value < |ws| && ws[r.value] == w && w !in ws[..r.value]
  {
    if ws == [] then None
    else if ws[0] == w then Some(0)
    else
      match IndexOf(ws[1..], w)
      case None => None
      case Some(i) =>
        assert ws[..i + 1] == [ws[0]] + ws[1..][..i];
        Some(i + 1)
  }

  /** The list that `retain(|&x| x != w)` leaves: every copy of `w` dropped. */
  function Without(ws: seq<Window>, w: Window): (r: seq<Window>)
    ensures |r| <= |ws|
    ensures forall x :: x in r <==> x in ws && x != w
    ensures multiset(r) == multiset(ws)[w := 0]
  {
    if ws == [] then []
    else
      assert ws == [ws[0]] + ws[1..];
      (if ws[0] == w then [] else [ws[0]]) + Without(ws[1..], w)
  }

  lemma WithoutCons(x: Window, rest: seq<Window>, w: Window)
    ensures Without([x] + rest, w) == (if x == w then [] else [x]) + Without(rest, w)
  {
    assert ([x] + rest)[0] == x;
    assert ([x] + rest)[1..] == rest;
  }

  /** Filtering distributes over concatenation: the survivors keep their relative order. */
  lemma {:induction false} WithoutAppend(a: seq<Window>, b: seq<Window>, w: Window)
    ensures Without(a + b, w) == Without(a, w) + Without(b, w)
  {
    if a == [] {
      assert a + b == b;
    } else {
      var rest := a[1..];
      var head := if a[0] == w then [] else [a[0]];
      assert a == [a[0]] + rest;
      assert a + b == [a[0]] + (rest + b);
      calc {
        Without(a + b, w);
        { WithoutCons(a[0], rest + b, w); }
        head + Without(rest + b, w);
        { WithoutAppend(rest, b, w); }
        head + (Without(rest, w) + Without(b, w));
        (head + Without(rest, w)) + Without(b, w);
        { WithoutCons(a[0], rest, w); }
        Without(a, w) + Without(b, w);
      }
    }
  }

  /** Removing a handle that is not in the list leaves the list as it was. */
  lemma {:induction false} WithoutAbsent(ws: seq<Window>, w: Window)
    requires w !in ws
    ensures Without(ws, w) == ws
  {
    if ws != [] {
      assert w !in ws[1..];
      WithoutAbsent(ws[1..], w);
    }
  }

  /** When `w` first occurs at `index`, the windows before it survive unchanged at the front. */
  lemma WithoutKeepsPrefix(ws: seq<Window>, w: Window, index: nat)
    requires IndexOf(ws, w) == Some(index)
    ensures Without(ws, w) == ws[..index] + Without(ws[index..], w)
    ensures |Without(ws, w)| >= index
  {
    assert ws == ws[..index] + ws[index..];
    WithoutAppend(ws[..index], ws[index..], w);
    WithoutAbsent(ws[..index], w);
  }

  /** When `w` occurs exactly once, at `index`, removal closes the gap it leaves. */
  lemma WithoutSingle(ws: seq<Window>, w: Window, index: nat)
    requires IndexOf(ws, w) == Some(index)
    requires w !in ws[index + 1..]
    ensures Without(ws, w) == ws[..index] + ws[index + 1..]
  {
    var tail := ws[index + 1..];
    assert ws[index..] == [w] + tail;
    calc {
      Without(ws, w);
      { WithoutKeepsPrefix(ws, w, index); }
      ws[..index] + Without([w] + tail, w);
      { WithoutCons(w, tail, w); }
      ws[..index] + ([] + Without(tail, w));
      { WithoutAbsent(tail, w); }
      ws[..index] + ([] + tail);
      { assert [] + tail == tail; }
      ws[..index] + tail;
    }
  }

  /**
   * The focus index after removing the window first found at `index`, when
   * `remaining` windows are left: step back onto the previous window if the
   * focused one went, shift left if an earlier one went, then clamp.
   */
  function FocusAfterRemoval(focused: nat, index: nat, remaining: nat): (r: nat)
    ensures remaining == 0 ==> r == 0
    ensures 0 < remaining ==> r < remaining
  {
    if remaining == 0 then 0
    else
      var stepped :=
        if focused == index then (if index == 0 then 0 else index - 1)
        else if index < focused then focused - 1
        else focused;
      if stepped >= remaining then remaining - 1 else stepped
  }

  /**
   * Removing the focused window moves focus onto the window just before it,
   * or keeps index 0 when it was the first.
   */
  lemma RemoveFocusedSelectsPrevious(ws: seq<Window>, focused: nat, w: Window)
    requires IndexOf(ws, w) == Some(focused)
    requires Without(ws, w) != []
    ensures var rest := Without(ws, w);
      && FocusAfterRemoval(focused, focused, |rest|) == (if focused == 0 then 0 else focused - 1)
      && (0 < focused ==> rest[focused - 1] == ws[focused - 1])
  {
    WithoutKeepsPrefix(ws, w, focused);
    var rest := Without(ws, w);
    if 0 < focused {
      assert rest[focused - 1] == ws[..focused][focused - 1];
    }
  }

  /**
   * Removing the only copy of a window that precedes the focused one
   * decrements focus by one, so it still designates the same window.
   */
  lemma RemoveBeforeFocusShiftsLeft(ws: seq<Window>, focused: nat, w: Window, index: nat)
    requires IndexOf(ws, w) == Some(index)
    requires w !in ws[index + 1..]
    requires index < focused < |ws|
    ensures var rest := Without(ws, w);
      && FocusAfterRemoval(focused, index, |rest|) == focused - 1
      && rest[focused - 1] == ws[focused]
  {
    WithoutSingle(ws, w, index);
  }

  /** Removing a window after the focused one leaves focus on the same window. */
  lemma RemoveAfterFocusKeepsFocus(ws: seq<Window>, focused: nat, w: Window, index: nat)
    requires IndexOf(ws, w) == Some(index)
    requires focused < index
    ensures var rest := Without(ws, w);
      && FocusAfterRemoval(focused, index, |rest|) == focused
      && rest[focused] == ws[focused]
  {
    WithoutKeepsPrefix(ws, w, index);
    var rest := Without(ws, w);
    assert rest[focused] == ws[..index][focused];
  }

  /** The managed windows and the focus index, updated in place. */
  class WmState {
    var windows: seq<Window>
    var focused: nat

    ghost predicate Valid()
      reads this
    {
      FocusInRange(windows, focused)
    }

    function Value(): StateValue
      reads this
    {
      StateValue(windows, focused)
    }

    constructor ()
      ensures windows == [] && focused == 0
      ensures Valid()
    {
      windows := [];
      focused := 0;
    }

    method FocusNext()
      modifies this
      ensures windows == old(windows)
      ensures focused == NextFocus(old(focused), |windows|)
      ensures old(Valid()) ==> Valid()
    {
      if windows != [] {
        focused := (focused + 1) % |windows|;
      }
    }

    method FocusPrev()
      modifies this
      ensures windows == old(windows)
      ensures focused == PrevFocus(old(focused), |windows|)
      ensures old(Valid()) ==> Valid()
    {
      if windows != [] {
        if focused == 0 {
          focused := |windows| - 1;
        } else {
          focused := focused - 1;
        }
      }
    }

    method RemoveWindow(window: Window)
      modifies this
      ensures window !in old(windows) ==> windows == old(windows) && focused == old(focused)
      ensures window in old(windows) ==>
        && windows == Without(old(windows), window)
        && focused == FocusAfterRemoval(old(focused), IndexOf(old(windows), window).value, |windows|)
        && Valid()
    {
      var removedIndex := IndexOf(windows, window);
      if removedIndex.Some? {
        var index := removedIndex.value;
        windows := Without(windows, window);

        if windows == [] {
          focused := 0;
          return;
        }

        if focused == index {
          focused := if index == 0 then 0 else index - 1;
        } else if index < focused {
          focused := focused - 1;
        }

        if focused >= |windows| {
          focused := |windows| - 1;
        }
      }
    }
  }
}
