/**
 * The tree of fit items (kmap/controller/lmfittree.py): which orbital the selection
 * stands for, the order of the top-level items, and the parameters read from them.
 */
module LmfitTree {
  import opened Wrappers

  /**
   * A tree item: an orbital item with the ID of its orbital, a data item below some parent
   * item (or none), or the "other" item.
   */
  datatype TreeItem = OrbitalItem(id: int) | DataItem(parent: Option<TreeItem>) | OtherItem

  /** An item the selection rule accepts: an orbital item, or a data item whose parent is one. */
  predicate Qualifies(item: TreeItem) {
    item.OrbitalItem? || (item.DataItem? && item.parent.Some? && item.parent.value.OrbitalItem?)
  }

  /** The ID an accepted item stands for: its own, or its parent orbital's. */
  function OrbitalID(item: TreeItem): int
    requires Qualifies(item)
  {
    if item.OrbitalItem? then item.id else item.parent.value.id
  }

  /** The position of the first accepted item. */
  function FirstQualifying(items: seq<TreeItem>): (r: Option<nat>)
    ensures r.Some? ==> r.value < |items| && Qualifies(items[r.value])
    ensures r.Some? ==> forall j :: 0 <= j < r.value ==> !Qualifies(items[j])
    ensures r.None? <==> forall j :: 0 <= j < |items| ==> !Qualifies(items[j])
  {
    if items == [] then None
    else if Qualifies(items[0]) then Some(0)
    else match FirstQualifying(items[1..])
      case None => None
      case Some(k) => Some(k + 1)
  }

  /** The items `_setup` adds: the "other" item, then one item per orbital (given by its ID). */
  function SetupItems(orbitals: seq<int>): (items: seq<TreeItem>)
    ensures |items| == 1 + |orbitals| && items[0] == OtherItem
    ensures forall i :: 0 <= i < |orbitals| ==> items[i + 1] == OrbitalItem(orbitals[i])
  {
    [OtherItem] + seq(|orbitals|, i requires 0 <= i < |orbitals| => OrbitalItem(orbitals[i]))
  }

  class LmFitTree {
    /** The top-level items of the tree widget, in order. */
    var topLevel: seq<TreeItem>

    /** `__init__(orbitals)`, of which `_setup` adds the items (column widths and header are left out). */
    constructor (orbitals: seq<int>)
      ensures topLevel == SetupItems(orbitals)
    {
      topLevel := [];
      new;
      AddTopLevelItem(OtherItem);
      for i := 0 to |orbitals|
        invariant |topLevel| == 1 + i && topLevel[0] == OtherItem
        invariant forall k :: 0 <= k < i ==> topLevel[k + 1] == OrbitalItem(orbitals[k])
      {
        AddTopLevelItem(OrbitalItem(orbitals[i]));
      }
      assert topLevel == SetupItems(orbitals);
    }

    /** `tree.addTopLevelItem(item)`. */
    method AddTopLevelItem(item: TreeItem)
      modifies this
      ensures topLevel == old(topLevel) + [item]
    {
      topLevel := topLevel + [item];
    }

    /**
     * `get_selected_orbital_ID()` for the selected items in order: the ID of the first
     * accepted item, or -1 when none is accepted.
     */
    method GetSelectedOrbitalID(selected: seq<TreeItem>) returns (id: int)
      ensures FirstQualifying(selected).None? ==> id == -1
      ensures FirstQualifying(selected).Some? ==> id == OrbitalID(selected[FirstQualifying(selected).value])
    {
      for k := 0 to |selected|
        invariant forall j :: 0 <= j < k ==> !Qualifies(selected[j])
      {
        var item := selected[k];
        if item.OrbitalItem? {
          return item.id;
        } else if item.DataItem? && item.parent.Some? && item.parent.value.OrbitalItem? {
          return item.parent.value.id;
        }
      }
      return -1;
    }

    /** `get_parameters()`: what each top-level item reports (`paramsOf`), one entry per item in tree order. */
    function GetParameters<P>(paramsOf: TreeItem -> P): (r: seq<P>)
      reads this
      ensures |r| == |topLevel| && forall i :: 0 <= i < |topLevel| ==> r[i] == paramsOf(topLevel[i])
    {
      seq(|topLevel|, i requires 0 <= i < |topLevel| reads this => paramsOf(topLevel[i]))
    }
  }

  /** For a tree fresh from `_setup`, the parameters of the "other" item come first, then those of each orbital in order. */
  lemma SetupParameters<P>(t: LmFitTree, orbitals: seq<int>, paramsOf: TreeItem -> P)
    requires t.topLevel == SetupItems(orbitals)
    ensures var ps := t.GetParameters(paramsOf);
      && |ps| == 1 + |orbitals| && ps[0] == paramsOf(OtherItem)
      && forall i :: 0 <= i < |orbitals| ==> ps[i + 1] == paramsOf(OrbitalItem(orbitals[i]))
  {
  }

  /** The selection rule as a search: an orbital item first in the selection wins with its own ID. */
  lemma SelectedOrbitalFirst(id: int, rest: seq<TreeItem>)
    ensures FirstQualifying([OrbitalItem(id)] + rest) == Some(0)
    ensures OrbitalID(([OrbitalItem(id)] + rest)[0]) == id
  {
  }

  /** Items the rule does not accept are skipped: putting them in front changes nothing but the position. */
  lemma SkipsUnaccepted(skipped: seq<TreeItem>, items: seq<TreeItem>)
    requires forall j :: 0 <= j < |skipped| ==> !Qualifies(skipped[j])
    ensures FirstQualifying(skipped + items) ==
      match FirstQualifying(items) { case None => None case Some(k) => Some(|skipped| + k) }
  {
    var all := skipped + items;
    assert forall j :: 0 <= j < |skipped| ==> all[j] == skipped[j];
    assert forall j :: 0 <= j < |items| ==> all[|skipped| + j] == items[j];
    match FirstQualifying(items)
    case None =>
    case Some(k) =>
      assert Qualifies(all[|skipped| + k]);
      assert forall j :: 0 <= j < |skipped| + k ==> !Qualifies(all[j]) by {
        forall j | 0 <= j < |skipped| + k ensures !Qualifies(all[j]) {
          if j >= |skipped| {
            assert all[j] == items[j - |skipped|];
          }
        }
      }
  }
}
