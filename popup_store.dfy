/** The popup registry (src/store/modules/use-popup-store.ts) and the popup
 *  controller over it (src/hooks/use-popup/index.ts). A registered popup is
 *  its `show` flag; the `setShow` setter it registers is modelled by its
 *  effect, writing the new flag back into the registry. */
module Popup {

  /** The names of src/constants/popup-names.ts. */
  datatype PopupName = Demo | Confirm | Picker

  class PopupStore {
    var list: map<PopupName, bool>

    constructor ()
      ensures list == map[]
    {
      list := map[];
    }

    /** Registers or overwrites one popup. */
    method SetPopup(key: PopupName, show: bool)
      modifies this
      ensures list == old(list)[key := show]
    {
      var copy := list;
      copy := copy[key := show];
      list := copy;
    }

    /** Unregisters one popup; an unregistered key changes nothing. */
    method RemovePopup(key: PopupName)
      modifies this
      ensures list == old(list) - {key}
      ensures key !in old(list) ==> list == old(list)
    {
      var copy := list;
      if key !in copy {
        return;
      }
      copy := copy - {key};
      list := copy;
    }

    method Clear()
      modifies this
      ensures list == map[]
    {
      list := map[];
    }

    /** `isPopupOpen(key)`: false for an unregistered key. */
    function IsPopupOpen(key: PopupName): (b: bool)
      reads this
      ensures b <==> key in list && list[key]
    {
      if key in list then list[key] else false
    }
  }

  /** Registering a fresh key and removing it again restores the registry. */
  lemma SetThenRemove(list: map<PopupName, bool>, key: PopupName, show: bool)
    requires key !in list
    ensures list[key := show] - {key} == list
  {
  }

  /** No popup of a registry is open. */
  ghost predicate AllClosed(list: map<PopupName, bool>) {
    forall k :: k in list ==> !list[k]
  }

  /** `popCloseAll`: every open popup is told to close. */
  method PopCloseAll(store: PopupStore)
    modifies store
    ensures store.list.Keys == old(store.list).Keys
    ensures AllClosed(store.list)
  {
    var rest := store.list.Keys;
    while rest != {}
      invariant rest <= store.list.Keys
      invariant store.list.Keys == old(store.list).Keys
      invariant forall k :: k in store.list && k !in rest ==> !store.list[k]
      decreases rest
    {
      var k :| k in rest;
      if store.list[k] {
        store.SetPopup(k, false);
      }
      rest := rest - {k};
    }
  }

  /** `popShow(key, closeOthers = false)`: an unregistered or already open popup is
   *  left alone; otherwise it opens, alone when `closeOthers` is set. */
  method PopShow(store: PopupStore, key: PopupName, closeOthers: bool := false)
    modifies store
    ensures key !in old(store.list) || old(store.list)[key] ==> store.list == old(store.list)
    ensures key in old(store.list) && !old(store.list)[key] && !closeOthers ==>
              store.list == old(store.list)[key := true]
    ensures key in old(store.list) && !old(store.list)[key] && closeOthers ==>
              store.list.Keys == old(store.list).Keys && forall k :: k in store.list ==> (store.list[k] <==> k == key)
  {
    if key !in store.list {
      return;
    }
    if store.list[key] {
      return;
    }
    if closeOthers {
      PopCloseAll(store);
    }
    store.SetPopup(key, true);
  }

  /** `popClose(key)`: closes a registered open popup, and nothing else. */
  method PopClose(store: PopupStore, key: PopupName)
    modifies store
    ensures key in old(store.list) && old(store.list)[key] ==> store.list == old(store.list)[key := false]
    ensures !(key in old(store.list) && old(store.list)[key]) ==> store.list == old(store.list)
  {
    if key !in store.list {
      return;
    }
    if !store.list[key] {
      return;
    }
    store.SetPopup(key, false);
  }

  /** `getOpenPopups()`: each open popup once. */
  method GetOpenPopups(store: PopupStore) returns (open: seq<PopupName>)
    ensures forall i, j :: 0 <= i < j < |open| ==> open[i] != open[j]
    ensures forall k :: k in open <==> store.IsPopupOpen(k)
    ensures AllClosed(store.list) ==> open == []
  {
    open := [];
    var rest := store.list.Keys;
    while rest != {}
      invariant rest <= store.list.Keys
      invariant forall i, j :: 0 <= i < j < |open| ==> open[i] != open[j]
      invariant forall k :: k in open <==> k in store.list && k !in rest && store.list[k]
      invariant AllClosed(store.list) ==> open == []
      decreases rest
    {
      var k :| k in rest;
      if store.list[k] {
        open := open + [k];
      }
      rest := rest - {k};
    }
  }

  /** After `popCloseAll` the list of open popups is empty. */
  method CloseAllThenList(store: PopupStore) returns (open: seq<PopupName>)
    modifies store
    ensures open == [] && AllClosed(store.list)
  {
    PopCloseAll(store);
    open := GetOpenPopups(store);
  }
}
