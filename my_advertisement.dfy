/** The owner's listing screen (src/screens/MyAdvertisement.tsx): five
    filter presets over the user's own listings. */
module MyAdvertisement {
  import opened Wrappers
  import opened Seqs
  import opened ProductDto

  /** A preset button: its label and its key. */
  datatype FilterPreset = FilterPreset(name: string, key: string)

  const FilterPresets: seq<FilterPreset> := [
    FilterPreset("Todos", "all"),
    FilterPreset("Ativos", "actives"),
    FilterPreset("Ativos e novos", "activesAndNew"),
    FilterPreset("Ativos e usados", "activeAndUsed"),
    FilterPreset("Desativados", "deactivate")
  ]

  /** The preset selected when the screen opens. */
  const InitialFilter := "actives"

  predicate IsActive(p: Product) { p.isActive == Some(true) }
  predicate IsActiveAndNew(p: Product) { p.isActive == Some(true) && p.isNew }
  predicate IsActiveAndUsed(p: Product) { p.isActive == Some(true) && !p.isNew }
  predicate IsDeactivated(p: Product) { p.isActive == Some(false) }

  /** `applyFilter`: the listings the preset `filterApplied` shows, in order;
      "all" and any key it does not know show every listing. */
  function ApplyFilter(filterApplied: string, products: seq<Product>): (shown: seq<Product>)
    ensures IsSubsequence(shown, products)
    ensures filterApplied !in {"actives", "activesAndNew", "activeAndUsed", "deactivate"} ==> shown == products
    ensures filterApplied == "actives" ==>
      forall p :: p in shown <==> p in products && p.isActive == Some(true)
    ensures filterApplied == "activesAndNew" ==>
      forall p :: p in shown <==> p in products && p.isActive == Some(true) && p.isNew
    ensures filterApplied == "activeAndUsed" ==>
      forall p :: p in shown <==> p in products && p.isActive == Some(true) && !p.isNew
    ensures filterApplied == "deactivate" ==>
      forall p :: p in shown <==> p in products && p.isActive == Some(false)
  {
    if filterApplied == "actives" then Filter(products, IsActive)
    else if filterApplied == "activesAndNew" then Filter(products, IsActiveAndNew)
    else if filterApplied == "activeAndUsed" then Filter(products, IsActiveAndUsed)
    else if filterApplied == "deactivate" then Filter(products, IsDeactivated)
    else
      assert IsSubsequence(Filter(products, _ => true), products);
      FilterKeepsAll(products, _ => true);
      products
  }

  /** The initial preset is one of the buttons, and the button keys are distinct. */
  lemma InitialFilterIsAPreset()
    ensures exists k :: 0 <= k < |FilterPresets| && FilterPresets[k].key == InitialFilter
    ensures forall i, j :: 0 <= i < j < |FilterPresets| ==> FilterPresets[i].key != FilterPresets[j].key
  {
    assert FilterPresets[1].key == InitialFilter;
  }

  /** A listing without `is_active` is shown neither as active nor as deactivated. */
  lemma UnsetActivityIsHidden(products: seq<Product>, p: Product)
    requires p.isActive.None?
    ensures p !in ApplyFilter("actives", products) && p !in ApplyFilter("deactivate", products)
  {
  }

  /** The "new" and "used" active presets never share a listing, together
      show exactly the active listings, and their sizes add up to it. */
  lemma ActivesSplitByCondition(products: seq<Product>)
    ensures forall p :: !(p in ApplyFilter("activesAndNew", products) && p in ApplyFilter("activeAndUsed", products))
    ensures forall p :: p in ApplyFilter("actives", products) <==>
      p in ApplyFilter("activesAndNew", products) || p in ApplyFilter("activeAndUsed", products)
    ensures |ApplyFilter("activesAndNew", products)| + |ApplyFilter("activeAndUsed", products)|
      == |ApplyFilter("actives", products)|
  {
    var active := ApplyFilter("actives", products);
    var activeNew := ApplyFilter("activesAndNew", products);
    var activeUsed := ApplyFilter("activeAndUsed", products);
    assert active == Filter(products, IsActive);
    assert activeNew == Filter(products, IsActiveAndNew);
    assert activeUsed == Filter(products, IsActiveAndUsed);
    forall p
      ensures !(p in activeNew && p in activeUsed)
      ensures p in active <==> p in activeNew || p in activeUsed
    {
    }
    FilterPartitionSize(products, IsActive, IsActiveAndNew, IsActiveAndUsed);
  }

  /** Three listings (active and new, active and used, inactive and new):
      the "active and new" preset shows only the first. */
  lemma ActivesAndNewExample(activeNew: Product, activeUsed: Product, inactiveNew: Product)
    requires activeNew.isActive == Some(true) && activeNew.isNew
    requires activeUsed.isActive == Some(true) && !activeUsed.isNew
    requires inactiveNew.isActive == Some(false) && inactiveNew.isNew
    ensures ApplyFilter("activesAndNew", [activeNew, activeUsed, inactiveNew]) == [activeNew]
  {
    var s := [activeNew, activeUsed, inactiveNew];
    assert [inactiveNew][1..] == [];
    assert Filter([inactiveNew], IsActiveAndNew) == [];
    assert [activeUsed, inactiveNew][1..] == [inactiveNew];
    assert Filter([activeUsed, inactiveNew], IsActiveAndNew) == [];
    assert s[1..] == [activeUsed, inactiveNew];
    assert Filter(s, IsActiveAndNew) == [activeNew];
    assert ApplyFilter("activesAndNew", s) == Filter(s, IsActiveAndNew);
  }
}
