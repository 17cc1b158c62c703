/** The reference tables of the production line: the process order of the
    stations, the shift checkpoints, the grouping of stations into sub-categories,
    and the module types. */
module DataInfo {
  import opened Common
  import opened Strings

  /** The 18 stations in process order (`CUSTOM_ORDER`). */
  const CustomOrder: seq<string> := [
    "Incoming Check",
    "Module Dispensing",
    "UV Curing dispense",
    "IC Bonding",
    "Pd/VC Bonding",
    "Wire Bonding",
    "Wire Checking",
    "Lens Bonding",
    "Lens CCD Position Check",
    "U Lens",
    "Bake/Oven",
    "Upload Program",
    "Divide Board",
    "Labeling",
    "BERT Test",
    "Dispensing Reverse",
    "Check Connector",
    "Packing"
  ]

  /** The shift checkpoints in shift order, across midnight (`CUSTOM_ORDER_TIME`). */
  const CustomOrderTime: seq<string> := [
    "10:00", "12:00", "15:00", "17:00",
    "20:00", "22:00", "00:00", "03:00", "05:00", "08:00"
  ]

  /** The module types (`MODULE_TYPE_LIST`). */
  const ModuleTypeList: seq<string> := ["TX", "RX"]

  /** `SUB_CATEGORY`: the sub-category names, in the dict's insertion order, each
      with its stations. */
  const SubCategory: seq<(string, seq<string>)> := [
    ("Die Bond", ["IC Bonding", "Pd/VC Bonding"]),
    ("Machine Only", ["Wire Bonding", "Wire Checking", "Lens Bonding", "Lens CCD Position Check"]),
    ("Dispensing", ["Module Dispensing", "UV Curing dispense", "U Lens", "Bake/Oven", "Dispensing Reverse"]),
    ("Function", ["Incoming Check", "Upload Program", "Divide Board", "Labeling", "BERT Test"]),
    ("Packing", ["Check Connector", "Packing"])
  ]

  /** The stations of the sub-categories, group after group. */
  function GroupedStations(groups: seq<(string, seq<string>)>): (r: seq<string>)
    ensures forall s :: s in r <==> exists k :: 0 <= k < |groups| && s in groups[k].1
  {
    if |groups| == 0 then []
    else
      var rest := GroupedStations(groups[1..]);
      assert forall k :: 0 <= k < |groups| - 1 ==> groups[1..][k] == groups[k + 1];
      groups[0].1 + rest
  }

  /** The process order has 18 stations, none twice, so the index of a station in
      it is well defined; it runs from incoming check to packing. */
  lemma CustomOrderWellFormed()
    ensures |CustomOrder| == 18 && Distinct(CustomOrder)
    ensures CustomOrder[0] == "Incoming Check" && CustomOrder[17] == "Packing"
  {
  }

  /** Listing the sub-categories' stations group after group gives these 18 names. */
  lemma GroupedSubCategory()
    ensures GroupedStations(SubCategory) == [
      "IC Bonding", "Pd/VC Bonding",
      "Wire Bonding", "Wire Checking", "Lens Bonding", "Lens CCD Position Check",
      "Module Dispensing", "UV Curing dispense", "U Lens", "Bake/Oven", "Dispensing Reverse",
      "Incoming Check", "Upload Program", "Divide Board", "Labeling", "BERT Test",
      "Check Connector", "Packing"
    ]
  {
    assert GroupedStations(SubCategory[4..]) == SubCategory[4].1;
    assert GroupedStations(SubCategory[3..]) == SubCategory[3].1 + SubCategory[4].1;
    assert GroupedStations(SubCategory[2..]) == SubCategory[2].1 + SubCategory[3].1 + SubCategory[4].1;
  }

  /** The sub-categories cover the process order: a station belongs to some
      sub-category exactly when it is one of the 18 stations. */
  lemma SubCategoryCoversStations()
    ensures forall s :: s in GroupedStations(SubCategory) <==> s in CustomOrder
  {
    GroupedSubCategory();
  }

  /** No station belongs to two sub-categories, nor twice to one. */
  lemma SubCategoryStationsDistinct()
    ensures Distinct(GroupedStations(SubCategory))
  {
    GroupedSubCategory();
  }

  /** No sub-category name occurs twice. */
  lemma SubCategoryNamesDistinct()
    ensures forall i, j :: 0 <= i < j < |SubCategory| ==> SubCategory[i].0 != SubCategory[j].0
  {
  }

  /** Ten distinct checkpoints, whose shift order is not the lexicographic one:
      "00:00" follows "22:00" in the shift but sorts before it. */
  lemma CustomOrderTimeWellFormed()
    ensures |CustomOrderTime| == 10 && Distinct(CustomOrderTime)
    ensures CustomOrderTime[5] == "22:00" && CustomOrderTime[6] == "00:00"
    ensures Less(CustomOrderTime[6], CustomOrderTime[5])
    ensures !StrictlySorted(CustomOrderTime)
  {
  }

  lemma ModuleTypes()
    ensures ModuleTypeList == ["TX", "RX"] && Distinct(ModuleTypeList)
  {
  }
}
