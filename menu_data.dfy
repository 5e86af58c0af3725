/** The catalogue (lib/data/menuData.ts): the built-in seed list, the
    stored list that overrides it, and the customer-facing queries. */
module MenuData {
  import opened Types
  import opened Storage
  import opened SeqFacts

  // The built-in dishes, each under its own name.

  const KungPaoChicken: MenuItem := MenuItem("ch-001", "Kung Pao Chicken", 350, Chinese, "Main Course",
    "https://images.unsplash.com/photo-1567620905732-2d1ec7ab7445?w=400&h=300&fit=crop",
    true, Some("Spicy stir-fried chicken with peanuts and vegetables"))
  const SweetAndSourPork: MenuItem := MenuItem("ch-002", "Sweet and Sour Pork", 320, Chinese, "Main Course",
    "https://images.unsplash.com/photo-1569718212165-3a8278d5f624?w=400&h=300&fit=crop",
    true, Some("Crispy pork with tangy sweet and sour sauce"))
  const MapoTofu: MenuItem := MenuItem("ch-003", "Mapo Tofu", 280, Chinese, "Vegetarian",
    "https://images.unsplash.com/photo-1582878826629-29b7ad1cdc43?w=400&h=300&fit=crop",
    true, Some("Spicy Sichuan tofu with minced meat"))
  const SpringRolls6Pcs: MenuItem := MenuItem("ch-004", "Spring Rolls (6 pcs)", 180, Chinese, "Appetizer",
    "https://images.unsplash.com/photo-1603133872878-684f208fb84b?w=400&h=300&fit=crop",
    true, Some("Crispy vegetable spring rolls with dipping sauce"))
  const FriedRice: MenuItem := MenuItem("ch-005", "Fried Rice", 240, Chinese, "Rice",
    "https://images.unsplash.com/photo-1603133872878-684f208fb84b?w=400&h=300&fit=crop",
    true, Some("Classic Chinese fried rice with vegetables"))
  const SzechuanNoodles: MenuItem := MenuItem("ch-006", "Szechuan Noodles", 290, Chinese, "Noodles",
    "https://images.unsplash.com/photo-1585032226651-759b368d7246?w=400&h=300&fit=crop",
    true, Some("Spicy noodles with Szechuan sauce"))
  const HotAndSourSoup: MenuItem := MenuItem("ch-007", "Hot and Sour Soup", 160, Chinese, "Soup",
    "https://images.unsplash.com/photo-1609501676725-7186f1f4a8a9?w=400&h=300&fit=crop",
    true, Some("Traditional hot and sour soup"))
  const PekingDuck: MenuItem := MenuItem("ch-008", "Peking Duck", 650, Chinese, "Main Course",
    "https://images.unsplash.com/photo-1609501676725-7186f1f4a8a9?w=400&h=300&fit=crop",
    false, Some("Classic Peking duck with pancakes"))

  /** The built-in chinese dishes; the last, Peking Duck, is unavailable. */
  const ChineseSeed: seq<MenuItem> :=
    [KungPaoChicken, SweetAndSourPork, MapoTofu, SpringRolls6Pcs, FriedRice, SzechuanNoodles, HotAndSourSoup,
     PekingDuck]


  const HyderabadiChickenBiryani: MenuItem := MenuItem("bi-001", "Hyderabadi Chicken Biryani", 380, Biryani, "Biryani",
    "https://images.unsplash.com/photo-1631452180519-c014fe946bc7?w=400&h=300&fit=crop",
    true, Some("Authentic Hyderabadi style biryani with tender chicken"))
  const MuttonBiryani: MenuItem := MenuItem("bi-002", "Mutton Biryani", 450, Biryani, "Biryani",
    "https://images.unsplash.com/photo-1631452180519-c014fe946bc7?w=400&h=300&fit=crop",
    true, Some("Rich mutton biryani with aromatic spices"))
  const VegetableBiryani: MenuItem := MenuItem("bi-003", "Vegetable Biryani", 280, Biryani, "Biryani",
    "https://images.unsplash.com/photo-1631452180519-c014fe946bc7?w=400&h=300&fit=crop",
    true, Some("Fragrant vegetable biryani with mixed vegetables"))
  const EggBiryani: MenuItem := MenuItem("bi-004", "Egg Biryani", 260, Biryani, "Biryani",
    "https://images.unsplash.com/photo-1631452180519-c014fe946bc7?w=400&h=300&fit=crop",
    true, Some("Delicious egg biryani with boiled eggs"))
  const ChickenKorma: MenuItem := MenuItem("bi-005", "Chicken Korma", 320, Biryani, "Curry",
    "https://images.unsplash.com/photo-1588166524941-3bf61a9c41db?w=400&h=300&fit=crop",
    true, Some("Creamy chicken curry with cashews and almonds"))
  const Raita: MenuItem := MenuItem("bi-006", "Raita", 80, Biryani, "Side",
    "https://images.unsplash.com/photo-1579952363873-27f3bade9f55?w=400&h=300&fit=crop",
    true, Some("Cool yogurt side dish"))
  const NaanBread: MenuItem := MenuItem("bi-007", "Naan Bread", 50, Biryani, "Bread",
    "https://images.unsplash.com/photo-1588166524941-3bf61a9c41db?w=400&h=300&fit=crop",
    true, Some("Freshly baked tandoori naan"))
  const GulabJamun2Pcs: MenuItem := MenuItem("bi-008", "Gulab Jamun (2 pcs)", 100, Biryani, "Dessert",
    "https://images.unsplash.com/photo-1579952363873-27f3bade9f55?w=400&h=300&fit=crop",
    true, Some("Sweet milk dumplings in sugar syrup"))

  /** The built-in biryani dishes, all available. */
  const BiryaniSeed: seq<MenuItem> :=
    [HyderabadiChickenBiryani, MuttonBiryani, VegetableBiryani, EggBiryani,
     ChickenKorma, Raita, NaanBread, GulabJamun2Pcs]


  /** The built-in catalogue: the chinese dishes, then the biryani dishes. */
  const SeedItems: seq<MenuItem> := ChineseSeed + BiryaniSeed

  /** The id prefix a dish of each cuisine carries. */
  function CuisineIdPrefix(c: Cuisine): string {
    match c
    case Chinese => "ch-"
    case Biryani => "bi-"
  }

  /** The catalogue in use: the stored list, or the seed list when storage
      holds nothing usable or there is no browser window. */
  function StoredMenuItems(hasWindow: bool, slot: Slot<seq<MenuItem>>): (items: seq<MenuItem>)
    ensures hasWindow && slot.Parsed? ==> items == slot.value
    ensures !hasWindow || slot.Empty? || slot.Unparsable? ==> items == SeedItems
  {
    ReadOr(hasWindow, slot, SeedItems)
  }

  predicate Shown(item: MenuItem, c: Cuisine) {
    item.cuisine == c && item.availability
  }

  /** The available items of one cuisine, in list order. */
  function AvailableOf(items: seq<MenuItem>, c: Cuisine): (r: seq<MenuItem>)
    ensures |r| <= |items|
    ensures forall i :: 0 <= i < |r| ==> Shown(r[i], c)
  {
    if items == [] then []
    else (if Shown(items[0], c) then [items[0]] else []) + AvailableOf(items[1..], c)
  }

  /** getMenuItemsByCuisine: the catalogue in use, filtered. */
  function GetMenuItemsByCuisine(hasWindow: bool, slot: Slot<seq<MenuItem>>, c: Cuisine): (r: seq<MenuItem>)
    ensures |r| <= |StoredMenuItems(hasWindow, slot)|
    ensures forall i :: 0 <= i < |r| ==> r[i].cuisine == c && r[i].availability
  {
    AvailableOf(StoredMenuItems(hasWindow, slot), c)
  }

  /** The first item with the id, or None when no item has it. */
  function FindItem(items: seq<MenuItem>, id: string): (r: Option<MenuItem>)
    ensures r.None? <==> forall i :: 0 <= i < |items| ==> items[i].id != id
    ensures r.Some? ==> r.value in items && r.value.id == id
    ensures forall k :: 0 <= k < |items| && items[k].id == id && (forall j :: 0 <= j < k ==> items[j].id != id)
                        ==> r == Some(items[k])
  {
    if items == [] then None
    else if items[0].id == id then Some(items[0])
    else
      var r := FindItem(items[1..], id);
      assert forall k :: 1 <= k < |items| ==> items[k] == items[1..][k - 1];
      r
  }

  /** getMenuItemById: the first item of the catalogue in use with the id. */
  function GetMenuItemById(hasWindow: bool, slot: Slot<seq<MenuItem>>, id: string): (r: Option<MenuItem>)
    ensures var items := StoredMenuItems(hasWindow, slot);
      && (r.None? <==> forall i :: 0 <= i < |items| ==> items[i].id != id)
      && (r.Some? ==> r.value in items && r.value.id == id)
      && (forall k :: 0 <= k < |items| && items[k].id == id && (forall j :: 0 <= j < k ==> items[j].id != id)
            ==> r == Some(items[k]))
  {
    FindItem(StoredMenuItems(hasWindow, slot), id)
  }

  /** getAllMenuItems: the whole catalogue in use. */
  function GetAllMenuItems(hasWindow: bool, slot: Slot<seq<MenuItem>>): (items: seq<MenuItem>)
    ensures hasWindow && slot.Parsed? ==> items == slot.value
    ensures !hasWindow || !slot.Parsed? ==> items == SeedItems
  {
    StoredMenuItems(hasWindow, slot)
  }

  /** An item is listed exactly when it is stored, of the cuisine, and available. */
  lemma {:induction false} AvailableOfMembers(items: seq<MenuItem>, c: Cuisine)
    ensures forall m :: m in AvailableOf(items, c) <==> m in items && m.cuisine == c && m.availability
    decreases |items|
  {
    if items != [] {
      AvailableOfMembers(items[1..], c);
      assert forall m :: m in items <==> m == items[0] || m in items[1..];
    }
  }

  /** A cuisine page lists exactly the stored items of that cuisine that are
      available, whichever list is in use. */
  lemma CuisineMenuExactly(hasWindow: bool, slot: Slot<seq<MenuItem>>, c: Cuisine)
    ensures forall m :: m in GetMenuItemsByCuisine(hasWindow, slot, c)
                        <==> m in GetAllMenuItems(hasWindow, slot) && m.cuisine == c && m.availability
  {
    AvailableOfMembers(StoredMenuItems(hasWindow, slot), c);
  }

  /** Filtering respects concatenation, so it keeps the stored order. */
  lemma {:induction false} AvailableOfConcat(a: seq<MenuItem>, b: seq<MenuItem>, c: Cuisine)
    ensures AvailableOf(a + b, c) == AvailableOf(a, c) + AvailableOf(b, c)
    decreases |a|
  {
    if a == [] {
      assert a + b == b;
    } else {
      assert (a + b)[0] == a[0] && (a + b)[1..] == a[1..] + b;
      AvailableOfConcat(a[1..], b, c);
      AppendAssoc(if Shown(a[0], c) then [a[0]] else [], AvailableOf(a[1..], c), AvailableOf(b, c));
    }
  }

  /** A list whose every item is shown is returned whole and in order. */
  lemma {:induction false} AvailableOfAllShown(items: seq<MenuItem>, c: Cuisine)
    requires forall i :: 0 <= i < |items| ==> Shown(items[i], c)
    ensures AvailableOf(items, c) == items
    decreases |items|
  {
    if items != [] {
      AvailableOfAllShown(items[1..], c);
    }
  }

  /** A list none of whose items is shown yields nothing. */
  lemma {:induction false} AvailableOfNoneShown(items: seq<MenuItem>, c: Cuisine)
    requires forall i :: 0 <= i < |items| ==> !Shown(items[i], c)
    ensures AvailableOf(items, c) == []
    decreases |items|
  {
    if items != [] {
      AvailableOfNoneShown(items[1..], c);
    }
  }

  lemma SeedIdsDistinct()
    ensures forall i, j :: 0 <= i < j < |SeedItems| ==> SeedItems[i].id != SeedItems[j].id
  {
  }

  lemma SeedIdPrefixes()
    ensures forall i :: 0 <= i < |SeedItems| ==>
      |SeedItems[i].id| >= 3 && SeedItems[i].id[..3] == CuisineIdPrefix(SeedItems[i].cuisine)
  {
  }

  lemma SeedPricesPositive()
    ensures forall i :: 0 <= i < |SeedItems| ==> SeedItems[i].price > 0
  {
  }

  /** The first seven chinese seed items are available; Peking Duck, the
      eighth, is not. */
  lemma ChineseSeedShape()
    ensures |ChineseSeed| == 8
    ensures forall i :: 0 <= i < 7 ==> Shown(ChineseSeed[i], Chinese)
    ensures !Shown(ChineseSeed[7], Chinese)
  {
  }

  lemma ChineseSeedIds()
    ensures |ChineseSeed| == 8
    ensures forall i :: 0 <= i < 7 ==> ChineseSeed[i].id != "ch-008"
    ensures ChineseSeed[7].id == "ch-008" && !ChineseSeed[7].availability
  {
  }

  /** Every seed item is tagged with the cuisine of its list, and every
      biryani seed item is available. */
  lemma SeedCuisines()
    ensures forall i :: 0 <= i < |ChineseSeed| ==> !Shown(ChineseSeed[i], Biryani)
    ensures forall i :: 0 <= i < |BiryaniSeed| ==> Shown(BiryaniSeed[i], Biryani) && !Shown(BiryaniSeed[i], Chinese)
  {
  }

  lemma ChineseSeedFiltered()
    ensures AvailableOf(ChineseSeed, Chinese) == ChineseSeed[..7]
  {
    ChineseSeedShape();
    SplitAt(ChineseSeed, 7);
    AvailableOfAllShown(ChineseSeed[..7], Chinese);
    AvailableOfNoneShown(ChineseSeed[7..], Chinese);
    AvailableOfConcat(ChineseSeed[..7], ChineseSeed[7..], Chinese);
  }

  /** Without a usable stored catalogue, a cuisine page shows the available
      dishes of that cuisine from the chinese seed list, then from the biryani one. */
  lemma FallbackMenu(hasWindow: bool, slot: Slot<seq<MenuItem>>, c: Cuisine)
    requires !hasWindow || !slot.Parsed?
    ensures GetMenuItemsByCuisine(hasWindow, slot, c) == AvailableOf(ChineseSeed, c) + AvailableOf(BiryaniSeed, c)
  {
    AvailableOfConcat(ChineseSeed, BiryaniSeed, c);
  }

  /** Without a usable stored catalogue, the chinese page shows the first
      seven seed items. */
  lemma SeedChineseMenu(hasWindow: bool, slot: Slot<seq<MenuItem>>)
    requires !hasWindow || !slot.Parsed?
    ensures GetMenuItemsByCuisine(hasWindow, slot, Chinese) == ChineseSeed[..7]
  {
    FallbackMenu(hasWindow, slot, Chinese);
    SeedCuisines();
    ChineseSeedFiltered();
    AvailableOfNoneShown(BiryaniSeed, Chinese);
  }

  /** Those seven are all but Peking Duck (ch-008), which is unavailable. */
  lemma SeedChineseMenuExcludesDuck(hasWindow: bool, slot: Slot<seq<MenuItem>>)
    requires !hasWindow || !slot.Parsed?
    ensures forall m :: m in GetMenuItemsByCuisine(hasWindow, slot, Chinese) ==> m.id != "ch-008"
  {
    SeedChineseMenu(hasWindow, slot);
    ChineseSeedIds();
  }

  /** Without a usable stored catalogue, the biryani page shows all eight
      biryani seed items. */
  lemma SeedBiryaniMenu(hasWindow: bool, slot: Slot<seq<MenuItem>>)
    requires !hasWindow || !slot.Parsed?
    ensures GetMenuItemsByCuisine(hasWindow, slot, Biryani) == BiryaniSeed
  {
    FallbackMenu(hasWindow, slot, Biryani);
    SeedCuisines();
    AvailableOfNoneShown(ChineseSeed, Biryani);
    AvailableOfAllShown(BiryaniSeed, Biryani);
  }
}
