/** The admin menu editor (app/admin/menu/page.tsx): the save rule and the
    records it sends to the remote menu table, the edit and cancel steps, the
    availability toggle, and the grouping of the list by cuisine and category
    with the heading taken from the group key. */
module MenuAdmin {
  import opened Types
  import opened Decimal
  import opened SeqFacts
  import MenuData

  /** The form: a partial menu item. Availability and description may be
      unset when an item without them is edited. */
  datatype MenuForm = MenuForm(
    name: string,
    price: int,
    cuisine: Cuisine,
    category: string,
    image: string,
    availability: Option<bool>,
    description: Option<string>)

  /** The blank form the editor opens with and returns to on cancel. */
  const DefaultForm: MenuForm := MenuForm("", 0, Chinese, "", "", Some(true), Some(""))

  const PlaceholderImage: string := "https://via.placeholder.com/400x300?text=Food+Image"

  /** The editor's state: the item being edited, whether the form is open, the form. */
  datatype Editor = Editor(editing: Option<MenuItem>, showForm: bool, form: MenuForm)

  /** Save needs a name, a non-zero price and a category; a negative price passes. */
  predicate CanSave(f: MenuForm) {
    f.name != "" && f.price != 0 && f.category != ""
  }

  /** The price check is JavaScript truthiness: 0 is refused, and any other
      price, a negative one included, is accepted. */
  lemma PriceTruthiness(f: MenuForm)
    requires f.name != "" && f.category != ""
    ensures !CanSave(f.(price := 0))
    ensures CanSave(f.(price := -1)) && CanSave(f.(price := 1))
    ensures CanSave(f) <==> f.price != 0
  {
  }

  /** What a save asks of the remote table. */
  datatype SaveAction = Rejected | UpdateItem(id: string, patch: MenuForm) | InsertItem(item: MenuItem)

  /** The id of an item added at a clock reading in milliseconds. */
  function NewItemId(c: Cuisine, nowMs: nat): (id: string)
    ensures |id| > 3 && id[..3] == MenuData.CuisineIdPrefix(c)
    ensures AllDigits(id[3..]) && DecimalValue(id[3..]) == nowMs
  {
    DecimalRoundTrip(nowMs);
    var id := MenuData.CuisineIdPrefix(c) + NatToDecimal(nowMs);
    assert id[..3] == MenuData.CuisineIdPrefix(c) && id[3..] == NatToDecimal(nowMs);
    id
  }

  /** The record inserted for a new item: the placeholder stands in for an
      empty image and an unset availability counts as available. */
  function InsertRecord(f: MenuForm, nowMs: nat): (m: MenuItem)
    ensures m.id == NewItemId(f.cuisine, nowMs)
    ensures m.name == f.name && m.price == f.price && m.cuisine == f.cuisine && m.category == f.category
    ensures m.image == (if f.image == "" then PlaceholderImage else f.image)
    ensures m.availability == (f.availability.None? || f.availability.value)
    ensures m.description == f.description
  {
    MenuItem(NewItemId(f.cuisine, nowMs), f.name, f.price, f.cuisine, f.category,
             if f.image == "" then PlaceholderImage else f.image,
             f.availability.GetOr(true), f.description)
  }

  /** handleSave: rejected when the form is incomplete, otherwise an update
      of the edited item or an insert of a new one. */
  function HandleSave(f: MenuForm, editing: Option<MenuItem>, nowMs: nat): (r: SaveAction)
    ensures r.Rejected? <==> !CanSave(f)
    ensures CanSave(f) && editing.Some? ==> r == UpdateItem(editing.value.id, f)
    ensures CanSave(f) && editing.None? ==> r.InsertItem? && r.item == InsertRecord(f, nowMs)
  {
    if !CanSave(f) then Rejected
    else if editing.Some? then UpdateItem(editing.value.id, f)
    else InsertItem(InsertRecord(f, nowMs))
  }

  /** How the remote table applies an update: every field is written as
      given, with no defaults; a field left unset is not sent and keeps its value. */
  function ApplyPatch(item: MenuItem, f: MenuForm): (m: MenuItem)
    ensures m.id == item.id && m.name == f.name && m.price == f.price
    ensures m.cuisine == f.cuisine && m.category == f.category && m.image == f.image
    ensures m.availability == (if f.availability.Some? then f.availability.value else item.availability)
    ensures m.description == (if f.description.Some? then f.description else item.description)
  {
    item.(name := f.name, price := f.price, cuisine := f.cuisine, category := f.category, image := f.image,
          availability := f.availability.GetOr(item.availability),
          description := if f.description.Some? then f.description else item.description)
  }

  /** The form filled from an item. */
  function FormOf(item: MenuItem): (f: MenuForm)
    ensures ApplyPatch(item, f) == item
    ensures f.availability == Some(item.availability)
  {
    MenuForm(item.name, item.price, item.cuisine, item.category, item.image, Some(item.availability), item.description)
  }

  /** handleEdit: remember the item, fill the form from it and open it. */
  function HandleEdit(ed: Editor, item: MenuItem): (r: Editor)
    ensures r.editing == Some(item) && r.showForm
    ensures ApplyPatch(item, r.form) == item
  {
    Editor(Some(item), true, FormOf(item))
  }

  /** handleCancel: forget the edited item, close the form, blank it. */
  function HandleCancel(ed: Editor): (r: Editor)
    ensures r.editing.None? && !r.showForm && r.form == DefaultForm
    ensures !CanSave(r.form)
  {
    Editor(None, false, DefaultForm)
  }

  /** The editor after a save: reset when the store accepted the write, as
      it was when the form was rejected or the store reported an error. */
  function AfterSave(ed: Editor, action: SaveAction, storeOk: bool): (r: Editor)
    ensures action.Rejected? || !storeOk ==> r == ed
    ensures !action.Rejected? && storeOk ==> r == HandleCancel(ed)
  {
    if action.Rejected? || !storeOk then ed else HandleCancel(ed)
  }

  /** Saving an edited item without touching the form writes it back unchanged. */
  lemma EditThenSaveUnchanged(ed: Editor, item: MenuItem, nowMs: nat)
    requires CanSave(FormOf(item))
    ensures var e := HandleEdit(ed, item);
      HandleSave(e.form, e.editing, nowMs) == UpdateItem(item.id, e.form)
      && ApplyPatch(item, e.form) == item
  {
  }

  /** After editing and cancelling, nothing of the edit is left. */
  lemma EditThenCancel(ed: Editor, item: MenuItem)
    ensures HandleCancel(HandleEdit(ed, item)) == HandleCancel(ed)
  {
  }

  /** A new item's id follows the seed catalogue's convention: the cuisine's
      prefix ("ch-" or "bi-") followed by the clock reading. */
  lemma InsertedIdPrefix(f: MenuForm, nowMs: nat)
    requires CanSave(f)
    ensures var r := HandleSave(f, None, nowMs);
      && r.InsertItem?
      && r.item.id[..3] == MenuData.CuisineIdPrefix(r.item.cuisine)
      && (r.item.cuisine == Chinese <==> r.item.id[..3] == "ch-")
      && DecimalValue(r.item.id[3..]) == nowMs
  {
    var r := HandleSave(f, None, nowMs);
    assert r.item.id[..3] == MenuData.CuisineIdPrefix(f.cuisine);
    assert "ch-" != "bi-";
  }

  /** Updating writes the image and availability as given, with no
      defaults: an empty image stays empty and unset availability keeps the
      item's, where an insert would use the placeholder and true. */
  lemma UpdateHasNoDefaults(item: MenuItem, f: MenuForm, nowMs: nat)
    requires f.image == "" && f.availability.None?
    ensures ApplyPatch(item, f).image == "" && ApplyPatch(item, f).availability == item.availability
    ensures InsertRecord(f, nowMs).image == PlaceholderImage && InsertRecord(f, nowMs).availability
  {
  }

  /** One row after toggling the item: a row with the item's id takes the
      negation of the availability the page showed for the item, provided
      the store accepted the update (ok). */
  function FlipRow(row: MenuItem, item: MenuItem, ok: bool): MenuItem {
    if ok && row.id == item.id then row.(availability := !item.availability) else row
  }

  /** toggleAvailability on the remote table, row by row. When the store
      reports an error (ok is false) the table stays as it was; the page
      does not look at the error and reloads either way. */
  function ToggleAvailability(table: seq<MenuItem>, item: MenuItem, ok: bool): (r: seq<MenuItem>)
    ensures |r| == |table|
    ensures !ok ==> r == table
    ensures forall j :: 0 <= j < |table| ==> r[j] == FlipRow(table[j], item, ok)
  {
    if table == [] then []
    else [FlipRow(table[0], item, ok)] + ToggleAvailability(table[1..], item, ok)
  }

  /** Flipping a row twice, the second time with the availability the first
      flip wrote, gives the row back. */
  lemma FlipRowTwice(row: MenuItem, item: MenuItem)
    requires row.id == item.id ==> row.availability == item.availability
    ensures FlipRow(FlipRow(row, item, true), item.(availability := !item.availability), true) == row
  {
  }

  /** Toggling an item, reloading, and toggling the reloaded item restores the table. */
  lemma ToggleTwiceRestores(table: seq<MenuItem>, item: MenuItem)
    requires forall j :: 0 <= j < |table| && table[j].id == item.id ==> table[j].availability == item.availability
    ensures ToggleAvailability(ToggleAvailability(table, item, true), item.(availability := !item.availability), true) == table
  {
    var flipped := item.(availability := !item.availability);
    var once := ToggleAvailability(table, item, true);
    var twice := ToggleAvailability(once, flipped, true);
    forall j | 0 <= j < |table|
      ensures twice[j] == table[j]
    {
      assert once[j] == FlipRow(table[j], item, true);
      assert twice[j] == FlipRow(once[j], flipped, true);
      FlipRowTwice(table[j], item);
    }
    assert |twice| == |table|;
  }

  // Grouping by cuisine and category.

  /** The group key `cuisine-category`. */
  function GroupKey(item: MenuItem): string {
    CuisineName(item.cuisine) + "-" + item.category
  }

  /** A key is the cuisine's name, a '-' and the category, so it always
      contains a '-' and the object never treats it as an array index. */
  lemma GroupKeyShape(item: MenuItem)
    ensures var key, n := GroupKey(item), |CuisineName(item.cuisine)|;
      && |key| > n && key[..n] == CuisineName(item.cuisine)
      && key[n] == '-' && key[n + 1..] == item.category
      && '-' in key
  {
    var n := |CuisineName(item.cuisine)|;
    assert GroupKey(item)[n] == '-';
  }

  // The reduce is stated for any list and any key function, so that its
  // proofs never look inside a menu item or a key; the page applies it to
  // the menu items with GroupKey.

  /** The distinct keys in order of first appearance (the order of the
      object's entries: no key looks like an array index). */
  function KeyOrder<T>(items: seq<T>, keyOf: T -> string): (keys: seq<string>)
    decreases |items|
  {
    if items == [] then []
    else
      var keys := KeyOrder(items[..|items| - 1], keyOf);
      if keyOf(items[|items| - 1]) in keys then keys else keys + [keyOf(items[|items| - 1])]
  }

  /** The items with a given key, in list order. */
  function Members<T>(items: seq<T>, keyOf: T -> string, key: string): (r: seq<T>)
    ensures |r| <= |items|
    ensures forall i :: 0 <= i < |r| ==> keyOf(r[i]) == key && r[i] in items
    decreases |items|
  {
    if items == [] then []
    else
      var init := Members(items[..|items| - 1], keyOf, key);
      assert forall m :: m in items[..|items| - 1] ==> m in items;
      init + (if keyOf(items[|items| - 1]) == key then [items[|items| - 1]] else [])
  }

  /** The grouped reduce: one pass over the items, opening a group at the
      first item of each key and appending every item to its group. */
  method GroupItems(items: seq<MenuItem>) returns (keys: seq<string>, groups: map<string, seq<MenuItem>>)
    ensures keys == KeyOrder(items, GroupKey)
    ensures forall k :: k in groups <==> k in keys
    ensures forall k :: k in groups ==> groups[k] == Members(items, GroupKey, k)
  {
    keys, groups := [], map[];
    for i := 0 to |items|
      invariant Grouped(items[..i], GroupKey, keys, groups)
    {
      var item := items[i];
      var key := GroupKey(item);
      ghost var keys0, groups0 := keys, groups;
      if key !in groups {
        groups := groups[key := []];
        keys := keys + [key];
      }
      GroupStep(items, GroupKey, i, keys0, groups0, keys, groups);
      groups := groups[key := groups[key] + [item]];
    }
    assert items[..|items|] == items;
  }

  /** The state of the reduce after a prefix of the list: the keys met so
      far in order, and under each the items of that key. */
  ghost predicate Grouped<T>(prefix: seq<T>, keyOf: T -> string, keys: seq<string>, groups: map<string, seq<T>>) {
    && keys == KeyOrder(prefix, keyOf)
    && (forall k :: k in groups <==> k in keys)
    && (forall k :: k in groups ==> groups[k] == Members(prefix, keyOf, k))
  }

  /** One step of the reduce: open the item's group when its key is new,
      then push the item onto it. */
  lemma GroupStep<T>(items: seq<T>, keyOf: T -> string, i: nat, keys: seq<string>, groups: map<string, seq<T>>,
                     keys1: seq<string>, groups1: map<string, seq<T>>)
    requires i < |items| && Grouped(items[..i], keyOf, keys, groups)
    requires keys1 == if keyOf(items[i]) in groups then keys else keys + [keyOf(items[i])]
    requires groups1 == if keyOf(items[i]) in groups then groups else groups[keyOf(items[i]) := []]
    ensures keyOf(items[i]) in groups1
    ensures Grouped(items[..i + 1], keyOf, keys1, groups1[keyOf(items[i]) := groups1[keyOf(items[i])] + [items[i]]])
  {
    var key := keyOf(items[i]);
    PrefixStep(items, keyOf, i);
    if key !in groups {
      MembersOfAbsentKey(items[..i], keyOf, key);
    }
    assert groups1[key] == Members(items[..i], keyOf, key);
    var g := groups1[key := groups1[key] + [items[i]]];
    forall k | k in g
      ensures g[k] == Members(items[..i + 1], keyOf, k)
    {
      MembersStep(items, keyOf, i, k);
      if k != key {
        assert g[k] == groups[k];
      }
    }
  }

  lemma MembersStep<T>(items: seq<T>, keyOf: T -> string, i: nat, k: string)
    requires i < |items|
    ensures Members(items[..i + 1], keyOf, k)
            == Members(items[..i], keyOf, k) + (if keyOf(items[i]) == k then [items[i]] else [])
  {
    assert items[..i + 1][..i] == items[..i];
  }

  /** One more item of the list: its key joins the key order when new, and
      the item joins its own group and no other. */
  lemma PrefixStep<T>(items: seq<T>, keyOf: T -> string, i: nat)
    requires i < |items|
    ensures var keys := KeyOrder(items[..i], keyOf);
      KeyOrder(items[..i + 1], keyOf) == if keyOf(items[i]) in keys then keys else keys + [keyOf(items[i])]
  {
    assert items[..i + 1][..i] == items[..i];
    assert items[..i + 1][i] == items[i];
  }

  /** The key order lists only keys of the items, no more keys than items,
      and starts with the first item's key. */
  lemma {:induction false} KeyOrderShape<T>(items: seq<T>, keyOf: T -> string)
    ensures var keys := KeyOrder(items, keyOf);
      && |keys| <= |items|
      && (items != [] ==> keys != [] && keys[0] == keyOf(items[0]))
      && (forall k :: k in keys ==> exists i :: 0 <= i < |items| && keyOf(items[i]) == k)
    decreases |items|
  {
    if items != [] {
      var init := items[..|items| - 1];
      KeyOrderShape(init, keyOf);
      forall k | k in KeyOrder(items, keyOf)
        ensures exists i :: 0 <= i < |items| && keyOf(items[i]) == k
      {
        if k in KeyOrder(init, keyOf) {
          var i :| 0 <= i < |init| && keyOf(init[i]) == k;
          assert items[i] == init[i];
        } else {
          assert keyOf(items[|items| - 1]) == k;
        }
      }
      if init != [] {
        assert init[0] == items[0];
      }
    }
  }

  /** A key that no item has has no members. */
  lemma {:induction false} MembersOfAbsentKey<T>(items: seq<T>, keyOf: T -> string, key: string)
    requires key !in KeyOrder(items, keyOf)
    ensures Members(items, keyOf, key) == []
    decreases |items|
  {
    if items != [] {
      MembersOfAbsentKey(items[..|items| - 1], keyOf, key);
    }
  }

  /** The group keys are pairwise distinct. */
  lemma {:induction false} KeyOrderDistinct<T>(items: seq<T>, keyOf: T -> string)
    ensures forall i, j :: 0 <= i < j < |KeyOrder(items, keyOf)| ==> KeyOrder(items, keyOf)[i] != KeyOrder(items, keyOf)[j]
    decreases |items|
  {
    if items != [] {
      KeyOrderDistinct(items[..|items| - 1], keyOf);
    }
  }

  /** Every item is in the group of its own key, and that key is listed. */
  lemma EachItemInItsGroup<T>(items: seq<T>, keyOf: T -> string)
    ensures forall i :: 0 <= i < |items| ==> keyOf(items[i]) in KeyOrder(items, keyOf)
    ensures forall i :: 0 <= i < |items| ==> items[i] in Members(items, keyOf, keyOf(items[i]))
  {
    EachKeyListed(items, keyOf);
    EachItemInGroup(items, keyOf);
  }

  lemma {:induction false} EachKeyListed<T>(items: seq<T>, keyOf: T -> string)
    ensures forall i :: 0 <= i < |items| ==> keyOf(items[i]) in KeyOrder(items, keyOf)
    decreases |items|
  {
    if items != [] {
      var n := |items| - 1;
      var init := items[..n];
      EachKeyListed(init, keyOf);
      assert items[..n + 1] == items && items[..n + 1][..n] == init;
      forall i | 0 <= i < |items|
        ensures keyOf(items[i]) in KeyOrder(items, keyOf)
      {
        if i < n {
          assert items[i] == init[i];
        }
      }
    }
  }

  lemma {:induction false} EachItemInGroup<T>(items: seq<T>, keyOf: T -> string)
    ensures forall i :: 0 <= i < |items| ==> items[i] in Members(items, keyOf, keyOf(items[i]))
    decreases |items|
  {
    if items != [] {
      var n := |items| - 1;
      var init := items[..n];
      EachItemInGroup(init, keyOf);
      assert items[..n + 1] == items && items[..n + 1][..n] == init;
      forall i | 0 <= i < |items|
        ensures items[i] in Members(items, keyOf, keyOf(items[i]))
      {
        var k := keyOf(items[i]);
        assert Members(items, keyOf, k) == Members(init, keyOf, k) + (if keyOf(items[n]) == k then [items[n]] else []);
        if i < n {
          assert items[i] == init[i];
        }
      }
    }
  }

  /** An item is in a group only when it is listed and has the group's key. */
  lemma OnlyInItsGroup<T>(items: seq<T>, keyOf: T -> string, key: string, m: T)
    requires m in Members(items, keyOf, key)
    ensures keyOf(m) == key && m in items
  {
    var r := Members(items, keyOf, key);
    var i :| 0 <= i < |r| && r[i] == m;
  }

  /** Grouping keeps list order: the group of a concatenation is the
      concatenation of the groups. */
  lemma {:induction false} MembersConcat<T>(a: seq<T>, b: seq<T>, keyOf: T -> string, key: string)
    ensures Members(a + b, keyOf, key) == Members(a, keyOf, key) + Members(b, keyOf, key)
    decreases |b|
  {
    if b == [] {
      assert a + b == a;
    } else {
      var b0 := b[..|b| - 1];
      assert (a + b)[..|a + b| - 1] == a + b0;
      assert (a + b)[|a + b| - 1] == b[|b| - 1];
      MembersConcat(a, b0, keyOf, key);
      AppendAssoc(Members(a, keyOf, key), Members(b0, keyOf, key),
                  if keyOf(b[|b| - 1]) == key then [b[|b| - 1]] else []);
    }
  }

  /** The sizes of the groups named by keys, added up. */
  function SumSizes<T>(items: seq<T>, keyOf: T -> string, keys: seq<string>): nat
    decreases |keys|
  {
    if keys == [] then 0 else SumSizes(items, keyOf, keys[..|keys| - 1]) + |Members(items, keyOf, keys[|keys| - 1])|
  }

  /** One more item adds one to the sizes exactly when its key is named. */
  lemma {:induction false} SumSizesSnoc<T>(items: seq<T>, keyOf: T -> string, x: T, keys: seq<string>)
    requires forall i, j :: 0 <= i < j < |keys| ==> keys[i] != keys[j]
    ensures SumSizes(items + [x], keyOf, keys) == SumSizes(items, keyOf, keys) + (if keyOf(x) in keys then 1 else 0)
    decreases |keys|
  {
    if keys != [] {
      var init, last := keys[..|keys| - 1], keys[|keys| - 1];
      assert (items + [x])[..|items|] == items;
      SumSizesSnoc(items, keyOf, x, init);
      assert keyOf(x) in keys <==> keyOf(x) in init || keyOf(x) == last;
      assert last !in init;
    }
  }

  /** The group sizes add up to the number of items. */
  lemma {:induction false} GroupSizesSum<T>(items: seq<T>, keyOf: T -> string)
    ensures SumSizes(items, keyOf, KeyOrder(items, keyOf)) == |items|
    decreases |items|
  {
    if items != [] {
      var init, x := items[..|items| - 1], items[|items| - 1];
      var keys := KeyOrder(init, keyOf);
      assert items == init + [x];
      GroupSizesSum(init, keyOf);
      KeyOrderDistinct(init, keyOf);
      SumSizesSnoc(init, keyOf, x, keys);
      if keyOf(x) !in keys {
        MembersOfAbsentKey(init, keyOf, keyOf(x));
        assert (keys + [keyOf(x)])[..|keys|] == keys;
      }
    }
  }

  // The heading of a group.

  /** JavaScript's split on '-'. */
  function Split(s: string): (parts: seq<string>)
    ensures |parts| >= 1
    decreases |s|
  {
    if s == [] then [""]
    else
      var rest := Split(s[1..]);
      if s[0] == '-' then [""] + rest else [[s[0]] + rest[0]] + rest[1..]
  }

  /** The heading of a group: the first two segments of its key. */
  function Heading(key: string): (h: (string, string))
    ensures '-' !in key ==> h == (key, "")
    ensures |h.0| <= |key|
  {
    FirstSegment(key);
    var parts := Split(key);
    (parts[0], if |parts| > 1 then parts[1] else "")
  }

  /** A string without '-' is a single segment; one with '-' has a shorter first segment. */
  lemma {:induction false} FirstSegment(s: string)
    ensures '-' !in s ==> Split(s) == [s]
    ensures '-' in s ==> |Split(s)[0]| < |s|
    decreases |s|
  {
    if s != [] {
      FirstSegment(s[1..]);
      assert '-' in s <==> s[0] == '-' || '-' in s[1..];
      if s[0] != '-' && '-' !in s[1..] {
        assert [s[0]] + s[1..] == s;
      }
    }
  }

  /** Splitting at a first '-' peels off the part before it. */
  lemma {:induction false} SplitAtFirstDash(a: string, b: string)
    requires '-' !in a
    ensures Split(a + "-" + b) == [a] + Split(b)
    decreases |a|
  {
    if a == [] {
      assert (a + "-" + b)[1..] == b;
    } else {
      var s := a + "-" + b;
      assert s[0] == a[0];
      assert s[1..] == a[1..] + "-" + b;
      SplitAtFirstDash(a[1..], b);
      assert [a[0]] + a[1..] == a;
    }
  }

  /** The heading shows the cuisine and the category's first segment: the
      full category exactly when the category contains no '-'. */
  lemma HeadingOfGroup(item: MenuItem)
    ensures Heading(GroupKey(item)).0 == CuisineName(item.cuisine)
    ensures Heading(GroupKey(item)).1 == Split(item.category)[0]
    ensures Heading(GroupKey(item)).1 == item.category <==> '-' !in item.category
  {
    assert '-' !in CuisineName(item.cuisine);
    SplitAtFirstDash(CuisineName(item.cuisine), item.category);
    FirstSegment(item.category);
  }
}
