/**
 * The item shape that the Header passes to the mega menus and the mobile
 * navigation menu as props (the `NavigationItem`, `MegaMenuColumn` and
 * `MegaMenuItem` interfaces of the navigation components).
 */
module MenuItems {
  import opened Wrappers

  datatype MenuLink = MenuLink(title: string, description: Option<string>, href: string)
  datatype MenuColumn = MenuColumn(title: string, items: seq<MenuLink>)
  datatype Dropdown = Dropdown(title: string, columns: seq<MenuColumn>)
  /** `name` is the item's `label` property (`label` is a Dafny keyword). */
  datatype MenuItem = MenuItem(name: string, href: Option<string>, hasDropdown: bool,
                               dropdownContent: Option<Dropdown>)

  /** `items.find(item => item.label === name)`: the first item with that label. */
  function FindItem(items: seq<MenuItem>, name: string): (r: Option<MenuItem>)
    ensures r.Some? ==> r.value.name == name && r.value in items
  {
    if items == [] then None
    else if items[0].name == name then Some(items[0])
    else FindItem(items[1..], name)
  }

  /** `find` succeeds exactly when some item has the label, and returns the first such item. */
  lemma {:induction false} FindItemFirst(items: seq<MenuItem>, name: string)
    ensures FindItem(items, name).Some? <==> exists i :: 0 <= i < |items| && items[i].name == name
    ensures FindItem(items, name).Some? ==>
              exists i :: 0 <= i < |items| && items[i] == FindItem(items, name).value &&
                          forall j :: 0 <= j < i ==> items[j].name != name
  {
    if items != [] && items[0].name != name {
      var tail := items[1..];
      FindItemFirst(tail, name);
      if FindItem(tail, name).Some? {
        var i :| 0 <= i < |tail| && tail[i] == FindItem(tail, name).value &&
                 forall j :: 0 <= j < i ==> tail[j].name != name;
        assert items[i + 1] == tail[i];
        forall j | 0 <= j < i + 1 ensures items[j].name != name {
          if j > 0 { assert items[j] == tail[j - 1]; }
        }
      }
      if exists i :: 0 <= i < |items| && items[i].name == name {
        var i :| 0 <= i < |items| && items[i].name == name;
        assert tail[i - 1] == items[i];
      }
    }
  }
}
