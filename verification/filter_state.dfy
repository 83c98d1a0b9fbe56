/** The filter selection: `state.filters.stay` and `state.filters.dining`, two sets of chip keys
    that the chip click handlers and the brand link change in place, together with the
    `aria-checked` flag each rendered chip carries, on which the click handler branches. */
module FilterState {

  /** The two chip toolbars: "Lodging filters" and "Dining filters". */
  datatype Toolbar = Lodging | Dining {
    function Other(): Toolbar {
      if this == Lodging then Dining else Lodging
    }
  }

  /** The selection with `key`'s membership flipped. */
  function Toggled(s: set<string>, key: string): (r: set<string>)
    ensures key in r <==> key !in s
    ensures forall k :: k != key ==> (k in r <==> k in s)
  {
    if key in s then s - {key} else s + {key}
  }

  /** Toggling the same key twice restores the selection. */
  lemma ToggleTwice(s: set<string>, key: string)
    ensures Toggled(Toggled(s, key), key) == s
  {
  }

  /** The click handler as written: `sel ? set.delete(key) : set.add(key)`, where `sel` is the
      chip's `aria-checked`, not the key's membership in the set. */
  function ClickedAsWritten(selected: set<string>, chipChecked: bool, key: string): (r: set<string>)
    ensures chipChecked ==> key !in r
    ensures !chipChecked ==> key in r
    ensures r - {key} == selected - {key}
  {
    if chipChecked then selected - {key} else selected + {key}
  }

  /** While the chip shows the key's membership, a click toggles the key. */
  lemma ClickedAsWrittenToggles(selected: set<string>, chipChecked: bool, key: string)
    requires chipChecked == (key in selected)
    ensures ClickedAsWritten(selected, chipChecked, key) == Toggled(selected, key)
  {
  }

  /** A chip rendered unchecked for a key that is still selected (the toolbar is re-rendered when
      the page is visited again, but the selection persists): the click keeps the key selected,
      where a toggle would have removed it. */
  lemma StaleChipClickKeepsKey(selected: set<string>, key: string)
    requires key in selected
    ensures ClickedAsWritten(selected, false, key) == selected
    ensures Toggled(selected, key) != selected
  {
  }

  class FilterSelection {
    /** `state.filters.stay` and `state.filters.dining` */
    var stay: set<string>
    var dining: set<string>
    /** The keys whose rendered chip shows `aria-checked="true"`, per toolbar. */
    var stayChecked: set<string>
    var diningChecked: set<string>

    function Selected(t: Toolbar): set<string>
      reads this
    {
      if t == Lodging then stay else dining
    }

    function Checked(t: Toolbar): set<string>
      reads this
    {
      if t == Lodging then stayChecked else diningChecked
    }

    /** Every chip shows whether its key is selected. */
    ghost predicate ChipsInSync()
      reads this
    {
      stayChecked == stay && diningChecked == dining
    }

    /** The initial state: nothing selected. */
    constructor ()
      ensures stay == {} && dining == {}
      ensures ChipsInSync()
    {
      stay, dining := {}, {};
      stayChecked, diningChecked := {}, {};
    }

    /** Rendering a toolbar as `chip()` writes it: every chip shows `aria-checked="false"`,
        whatever the selection holds. */
    method RenderToolbar(t: Toolbar)
      modifies this
      ensures Checked(t) == {} && Checked(t.Other()) == old(Checked(t.Other()))
      ensures stay == old(stay) && dining == old(dining)
      ensures ChipsInSync() <==> old(Checked(t.Other()) == Selected(t.Other())) && Selected(t) == {}
    {
      if t == Lodging {
        stayChecked := {};
      } else {
        diningChecked := {};
      }
    }

    /** A chip click as the handler is written: the branch is taken on the chip's
        `aria-checked`, which the click then flips. */
    method ClickChipAsWritten(t: Toolbar, key: string)
      modifies this
      ensures Selected(t) == ClickedAsWritten(old(Selected(t)), key in old(Checked(t)), key)
      ensures Checked(t) == Toggled(old(Checked(t)), key)
      ensures Selected(t.Other()) == old(Selected(t.Other()))
      ensures Checked(t.Other()) == old(Checked(t.Other()))
      ensures old(ChipsInSync()) ==> ChipsInSync() && Selected(t) == Toggled(old(Selected(t)), key)
    {
      var sel := key in Checked(t);
      if t == Lodging {
        stayChecked := Toggled(stayChecked, key);
        stay := if sel then stay - {key} else stay + {key};
      } else {
        diningChecked := Toggled(diningChecked, key);
        dining := if sel then dining - {key} else dining + {key};
      }
    }

    /** A chip click that decides by the key's membership: the key is removed if selected and
        added otherwise, and the chip shows the outcome. */
    method ToggleChip(t: Toolbar, key: string)
      modifies this
      ensures Selected(t) == Toggled(old(Selected(t)), key)
      ensures Selected(t.Other()) == old(Selected(t.Other()))
      ensures Checked(t) - {key} == old(Checked(t)) - {key}
      ensures key in Checked(t) <==> key in Selected(t)
      ensures Checked(t.Other()) == old(Checked(t.Other()))
      ensures old(ChipsInSync()) ==> ChipsInSync()
    {
      if t == Lodging {
        stay := Toggled(stay, key);
        stayChecked := if key in stay then stayChecked + {key} else stayChecked - {key};
      } else {
        dining := Toggled(dining, key);
        diningChecked := if key in dining then diningChecked + {key} else diningChecked - {key};
      }
    }

    /** The brand link: both selections are emptied before the home page is shown. */
    method ClearAll()
      modifies this`stay, this`dining
      ensures stay == {} && dining == {}
    {
      dining := {};
      stay := {};
    }
  }

  /** Two clicks on the same chip restore the selection, whatever the chips showed. */
  method ToggleChipTwice(sel: FilterSelection, t: Toolbar, key: string)
    modifies sel
    ensures sel.Selected(t) == old(sel.Selected(t))
    ensures sel.Selected(t.Other()) == old(sel.Selected(t.Other()))
  {
    sel.ToggleChip(t, key);
    sel.ToggleChip(t, key);
    ToggleTwice(old(sel.Selected(t)), key);
  }
}
